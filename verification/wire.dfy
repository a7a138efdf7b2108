/** Little-endian integers and fields laid out one after the other. */
module Wire {
  import opened Machine

  function Pow256(k: nat): nat {
    if k == 0 then 1 else 256 * Pow256(k - 1)
  }

  /** `n` in `k` little-endian bytes. */
  function ToBytes(n: nat, k: nat): (b: seq<byte>)
    ensures |b| == k
  {
    if k == 0 then [] else [n % 256] + ToBytes(n / 256, k - 1)
  }

  function FromBytes(b: seq<byte>): nat {
    if b == [] then 0 else b[0] + 256 * FromBytes(b[1..])
  }

  lemma {:induction false} BytesRoundTrip(n: nat, k: nat)
    requires n < Pow256(k)
    ensures FromBytes(ToBytes(n, k)) == n
  {
    if k > 0 {
      BytesRoundTrip(n / 256, k - 1);
      assert ToBytes(n, k)[1..] == ToBytes(n / 256, k - 1);
    }
  }

  lemma {:induction false} FromBytesBound(b: seq<byte>)
    ensures FromBytes(b) < Pow256(|b|)
  {
    if b != [] {
      FromBytesBound(b[1..]);
    }
  }

  lemma {:induction false} Powers()
    ensures Pow256(2) == U16_LIMIT && Pow256(4) == U32_LIMIT && Pow256(8) == U64_LIMIT
  {
    assert Pow256(2) == 256 * Pow256(1) && Pow256(1) == 256 * Pow256(0);
    assert Pow256(4) == 256 * Pow256(3) && Pow256(3) == 256 * Pow256(2);
    assert Pow256(6) == 256 * Pow256(5) && Pow256(5) == 256 * Pow256(4);
    assert Pow256(8) == 256 * Pow256(7) && Pow256(7) == 256 * Pow256(6);
  }

  function U16At(b: seq<byte>, p: nat): u16
    requires p + 2 <= |b|
  {
    FromBytesBound(b[p..p + 2]);
    Powers();
    FromBytes(b[p..p + 2])
  }

  function U32At(b: seq<byte>, p: nat): u32
    requires p + 4 <= |b|
  {
    FromBytesBound(b[p..p + 4]);
    Powers();
    FromBytes(b[p..p + 4])
  }

  function U64At(b: seq<byte>, p: nat): u64
    requires p + 8 <= |b|
  {
    FromBytesBound(b[p..p + 8]);
    Powers();
    FromBytes(b[p..p + 8])
  }

  /** Four bytes, counted from the lowest. */
  function Word(b: seq<byte>, p: nat): int
    requires p + 4 <= |b|
  {
    var b0: int, b1: int, b2: int, b3: int := b[p], b[p + 1], b[p + 2], b[p + 3];
    b0 + 0x100 * b1 + 0x1_0000 * b2 + 0x100_0000 * b3
  }

  /** Numbers are little-endian. */
  lemma {:induction false} LittleEndian(b: seq<byte>, p: nat)
    ensures p + 2 <= |b| ==> var low: int, high: int := b[p], b[p + 1]; U16At(b, p) == low + 0x100 * high
    ensures p + 4 <= |b| ==> U32At(b, p) == Word(b, p)
    ensures p + 8 <= |b| ==> U64At(b, p) == Word(b, p) + 0x1_0000_0000 * Word(b, p + 4)
  {
    if p + 2 <= |b| {
      var c := b[p..p + 2];
      assert c[1..][1..] == [] && c[1..][0] == b[p + 1];
      assert FromBytes(c[1..]) == c[1..][0] + 256 * FromBytes([]);
    }
    if p + 4 <= |b| {
      FourBytes(b[p..p + 4], []);
      assert b[p..p + 4] + [] == b[p..p + 4];
    }
    if p + 8 <= |b| {
      FourBytes(b[p..p + 4], b[p + 4..p + 8]);
      FourBytes(b[p + 4..p + 8], []);
      assert b[p..p + 8] == b[p..p + 4] + b[p + 4..p + 8];
      assert b[p + 4..p + 8] + [] == b[p + 4..p + 8];
    }
  }

  lemma {:induction false} FourBytes(c: seq<byte>, rest: seq<byte>)
    requires |c| == 4
    ensures FromBytes(c + rest) == Word(c, 0) + 0x1_0000_0000 * FromBytes(rest)
  {
    var b := c + rest;
    var x1, x2, x3 := b[1..], b[2..], b[3..];
    assert x1[1..] == x2 && x2[1..] == x3 && x3[1..] == rest && x1[0] == c[1] && x2[0] == c[2] && x3[0] == c[3];
    assert FromBytes(x3) == x3[0] + 256 * FromBytes(rest);
    assert FromBytes(x2) == x2[0] + 256 * FromBytes(x3);
    assert FromBytes(x1) == x1[0] + 256 * FromBytes(x2);
  }

  lemma {:induction false} U16RoundTrip(n: u16)
    ensures FromBytes(ToBytes(n, 2)) == n
  {
    Powers();
    BytesRoundTrip(n, 2);
  }

  lemma {:induction false} U32RoundTrip(n: u32)
    ensures FromBytes(ToBytes(n, 4)) == n
  {
    Powers();
    BytesRoundTrip(n, 4);
  }

  lemma {:induction false} U64RoundTrip(n: u64)
    ensures FromBytes(ToBytes(n, 8)) == n
  {
    Powers();
    BytesRoundTrip(n, 8);
  }

  /** Fields one after the other. */
  function Concat(fields: seq<seq<byte>>): seq<byte> {
    if fields == [] then [] else fields[0] + Concat(fields[1..])
  }

  /** Where field `k` starts. */
  function Offset(fields: seq<seq<byte>>, k: nat): nat
    requires k <= |fields|
  {
    if k == 0 then 0 else Offset(fields, k - 1) + |fields[k - 1]|
  }

  lemma {:induction false} OffsetTail(fields: seq<seq<byte>>, k: nat)
    requires 0 < k <= |fields|
    ensures Offset(fields, k) == |fields[0]| + Offset(fields[1..], k - 1)
  {
    if k > 1 {
      OffsetTail(fields, k - 1);
    }
  }

  /** Field `k` is found at its offset, whatever follows the fields. */
  lemma {:induction false} FieldAt(fields: seq<seq<byte>>, k: nat, rest: seq<byte>)
    requires k < |fields|
    ensures Offset(fields, k) + |fields[k]| <= |Concat(fields)|
    ensures (Concat(fields) + rest)[Offset(fields, k)..Offset(fields, k) + |fields[k]|] == fields[k]
  {
    var bytes := Concat(fields) + rest;
    assert bytes == fields[0] + (Concat(fields[1..]) + rest);
    if k > 0 {
      OffsetTail(fields, k);
      FieldAt(fields[1..], k - 1, rest);
      var p := Offset(fields[1..], k - 1);
      assert bytes[|fields[0]| + p..|fields[0]| + p + |fields[k]|]
          == (Concat(fields[1..]) + rest)[p..p + |fields[k]|];
    }
  }

  lemma {:induction false} ConcatSnoc(fields: seq<seq<byte>>, f: seq<byte>)
    ensures Concat(fields + [f]) == Concat(fields) + f
  {
    if fields == [] {
      assert fields + [f] == [f];
      assert [f][1..] == [];
    } else {
      assert (fields + [f])[1..] == fields[1..] + [f];
      ConcatSnoc(fields[1..], f);
    }
  }

  lemma {:induction false} ConcatLength(fields: seq<seq<byte>>, k: nat)
    requires k <= |fields|
    ensures |Concat(fields[..k])| == Offset(fields, k)
  {
    if k > 0 {
      ConcatLength(fields, k - 1);
      assert fields[..k] == fields[..k - 1] + [fields[k - 1]];
      ConcatSnoc(fields[..k - 1], fields[k - 1]);
    }
  }

  lemma {:induction false} OffsetGrows(fields: seq<seq<byte>>, m: nat, n: nat)
    requires m <= n <= |fields|
    ensures Offset(fields, m) <= Offset(fields, n)
  {
    if m < n {
      OffsetGrows(fields, m, n - 1);
    }
  }

  /** One more field written after the first `k`. */
  lemma {:induction false} NextField(fields: seq<seq<byte>>, k: nat)
    requires k < |fields|
    ensures Concat(fields[..k + 1]) == Concat(fields[..k]) + fields[k]
    ensures |Concat(fields[..k])| + |fields[k]| <= |Concat(fields)|
  {
    assert fields[..k + 1] == fields[..k] + [fields[k]];
    ConcatSnoc(fields[..k], fields[k]);
    ConcatLength(fields, k + 1);
    ConcatLength(fields, |fields|);
    assert fields[..|fields|] == fields;
    OffsetGrows(fields, k + 1, |fields|);
  }

  /** Copy `bytes` into a buffer at `p`; everything else stays. */
  method WriteAt(output: array<byte>, p: nat, bytes: seq<byte>)
    requires p + |bytes| <= output.Length
    modifies output
    ensures output[..] == old(output[..p]) + bytes + old(output[p + |bytes|..])
  {
    forall j | 0 <= j < |bytes| {
      output[p + j] := bytes[j];
    }
  }

  lemma {:induction false} SubSlice(b: seq<byte>, p: nat, n: nat, q: nat, m: nat)
    requires p + n <= |b| && q + m <= n
    ensures b[p..p + n][q..q + m] == b[p + q..p + q + m]
  {
    var c, d := b[p..p + n], b[p + q..p + q + m];
    forall i | 0 <= i < m ensures c[q..q + m][i] == d[i] {
      assert c[q..q + m][i] == c[q + i];
    }
  }

  /** Fields of one size. */
  ghost predicate Sized(fields: seq<seq<byte>>, size: nat) {
    forall i :: 0 <= i < |fields| ==> |fields[i]| == size
  }

  lemma {:induction false} SizedOffset(fields: seq<seq<byte>>, size: nat, k: nat)
    requires Sized(fields, size) && k <= |fields|
    ensures Offset(fields, k) == k * size
  {
    if k > 0 {
      SizedOffset(fields, size, k - 1);
    }
  }

  lemma {:induction false} SizedLength(fields: seq<seq<byte>>, size: nat)
    requires Sized(fields, size)
    ensures |Concat(fields)| == |fields| * size
  {
    if fields != [] {
      SizedLength(fields[1..], size);
    }
  }
}
