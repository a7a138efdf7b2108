/** The bytes of the three accounts, as the program writes and reads them and as the
    off-chain client reads them. */
module Storage {
  import opened Machine
  import opened Data
  import opened Wire

  const HEADER_LEN := 3
  const VALIDATOR_LEN := 56
  const CREDIT_LEN := 72
  const VALIDATOR_LIST_LEN := HEADER_LEN + VALIDATOR_LEN * MAX_VALIDATORS
  const CREDIT_LIST_LEN := HEADER_LEN + CREDIT_LEN * MAX_CREDIT_RECORDS
  const POOL_LEN := 272

  /** Whatever bytes a struct copy leaves in padding. */
  type Pad4 = b: seq<byte> | |b| == 4 witness [0, 0, 0, 0]
  type Pad5 = b: seq<byte> | |b| == 5 witness [0, 0, 0, 0, 0]

  // ---- one record

  function ValidatorFields(r: ValidatorStakeInfo, pad: Pad4): seq<seq<byte>> {
    [r.validator.bytes, ToBytes(r.balance, 8), ToBytes(r.lastUpdateEpoch, 8), ToBytes(r.stakeCount, 4), pad]
  }

  function KeyAt(b: seq<byte>, p: nat): Pubkey
    requires p + 32 <= |b|
  {
    Pubkey(b[p..p + 32])
  }

  /** A validator record at position `p`. */
  function ValidatorAt(b: seq<byte>, p: nat): ValidatorStakeInfo
    requires p + VALIDATOR_LEN <= |b|
  {
    ValidatorStakeInfo(KeyAt(b, p), U64At(b, p + 32), U64At(b, p + 40), U32At(b, p + 48))
  }

  function CreditFields(c: CreditRecord): seq<seq<byte>> {
    [c.solTarget.bytes, c.cancelAuthority.bytes, ToBytes(c.tokenAmount, 8)]
  }

  function CreditAt(b: seq<byte>, p: nat): CreditRecord
    requires p + CREDIT_LEN <= |b|
  {
    CreditRecord(KeyAt(b, p), KeyAt(b, p + 32), U64At(b, p + 64))
  }

  lemma {:induction false} ValidatorRoundTrip(r: ValidatorStakeInfo, pad: Pad4)
    ensures |Concat(ValidatorFields(r, pad))| == VALIDATOR_LEN
    ensures ValidatorAt(Concat(ValidatorFields(r, pad)), 0) == r
  {
    var fields := ValidatorFields(r, pad);
    var bytes := Concat(fields);
    assert bytes + [] == bytes;
    assert Offset(fields, 1) == 32 && Offset(fields, 2) == 40 && Offset(fields, 3) == 48 && Offset(fields, 4) == 52;
    FieldAt(fields, 0, []);
    FieldAt(fields, 1, []);
    FieldAt(fields, 2, []);
    FieldAt(fields, 3, []);
    ConcatLength(fields, 5);
    assert fields[..5] == fields;
    U64RoundTrip(r.balance);
    U64RoundTrip(r.lastUpdateEpoch);
    U32RoundTrip(r.stakeCount);
  }

  lemma {:induction false} CreditRoundTrip(c: CreditRecord)
    ensures |Concat(CreditFields(c))| == CREDIT_LEN
    ensures CreditAt(Concat(CreditFields(c)), 0) == c
  {
    var fields := CreditFields(c);
    var bytes := Concat(fields);
    assert bytes + [] == bytes;
    assert Offset(fields, 1) == 32 && Offset(fields, 2) == 64;
    FieldAt(fields, 0, []);
    FieldAt(fields, 1, []);
    FieldAt(fields, 2, []);
    ConcatLength(fields, 3);
    assert fields[..3] == fields;
    U64RoundTrip(c.tokenAmount);
  }

  // ---- a list: version, count, records

  function ListImage(version: byte, chunks: seq<seq<byte>>): seq<byte> {
    [version] + ToBytes(|chunks|, 2) + Concat(chunks)
  }

  function ValidatorChunks(list: seq<ValidatorStakeInfo>, pad: nat -> Pad4): seq<seq<byte>> {
    seq(|list|, i requires 0 <= i < |list| => Concat(ValidatorFields(list[i], pad(i))))
  }

  function CreditChunks(list: seq<CreditRecord>): seq<seq<byte>> {
    seq(|list|, i requires 0 <= i < |list| => Concat(CreditFields(list[i])))
  }

  /** Write version, count and records through a moving window; the rest stays. */
  method WriteList(version: byte, chunks: seq<seq<byte>>, output: array<byte>)
    requires |ListImage(version, chunks)| <= output.Length && |chunks| < U16_LIMIT
    modifies output
    ensures output[..] == ListImage(version, chunks) + old(output[..])[|ListImage(version, chunks)|..]
  {
    ghost var before := output[..];
    output[0] := version;
    WriteAt(output, 1, ToBytes(|chunks|, 2));
    var from := HEADER_LEN;
    assert chunks[..0] == [];
    assert output[..] == ListHead(version, |chunks|) + Concat(chunks[..0]) + before[from..];
    for i := 0 to |chunks|
      invariant HEADER_LEN <= from <= output.Length && from == HEADER_LEN + |Concat(chunks[..i])|
      invariant output[..] == ListHead(version, |chunks|) + Concat(chunks[..i]) + before[from..]
    {
      NextField(chunks, i);
      ListStep(ListHead(version, |chunks|), Concat(chunks[..i]), chunks[i], before, output[..], from);
      WriteAt(output, from, chunks[i]);
      from := from + |chunks[i]|;
    }
    assert chunks[..|chunks|] == chunks;
  }

  lemma {:induction false} ListStep(head: seq<byte>, done: seq<byte>, chunk: seq<byte>, before: seq<byte>,
                                    now: seq<byte>, from: nat)
    requires |head + done| == from && from + |chunk| <= |before| && now == head + done + before[from..]
    ensures |now| == |before|
    ensures now[..from] + chunk + now[from + |chunk|..] == head + (done + chunk) + before[from + |chunk|..]
  {
    assert now[from + |chunk|..] == before[from..][|chunk|..];
  }

  function ListHead(version: byte, count: nat): seq<byte> {
    [version] + ToBytes(count, 2)
  }

  /** Record `k` of a list, found by its position. */
  lemma {:induction false} ChunkAt(version: byte, chunks: seq<seq<byte>>, size: nat, k: nat, rest: seq<byte>)
    requires Sized(chunks, size) && k < |chunks|
    ensures var p := HEADER_LEN + k * size;
            && p + size <= |ListImage(version, chunks)|
            && (ListImage(version, chunks) + rest)[p..p + size] == chunks[k]
  {
    FieldAt(chunks, k, rest);
    SizedOffset(chunks, size, k);
    var bytes := ListImage(version, chunks) + rest;
    assert bytes == ListHead(version, |chunks|) + (Concat(chunks) + rest);
    var q := k * size;
    assert bytes[HEADER_LEN + q..HEADER_LEN + q + size] == (Concat(chunks) + rest)[q..q + size];
  }

  lemma {:induction false} HeaderAt(version: byte, chunks: seq<seq<byte>>, rest: seq<byte>)
    requires |chunks| < U16_LIMIT
    ensures |ListImage(version, chunks)| >= HEADER_LEN
    ensures var bytes := ListImage(version, chunks) + rest; bytes[0] == version && U16At(bytes, 1) == |chunks|
  {
    var bytes := ListImage(version, chunks) + rest;
    assert bytes[1..3] == ToBytes(|chunks|, 2);
    U16RoundTrip(|chunks|);
  }

  // ---- what the program reads

  function DeserializeValidators(b: seq<byte>): Result<(byte, seq<ValidatorStakeInfo>), Error> {
    if |b| < VALIDATOR_LIST_LEN then Err(InvalidAccountData)
    else if b[0] == 0 then Ok((0, []))
    else if U16At(b, 1) > MAX_VALIDATORS then Err(InvalidAccountData)
    else Ok((b[0], ValidatorsIn(b, U16At(b, 1))))
  }

  /** The first `n` validator records. */
  function ValidatorsIn(b: seq<byte>, n: nat): seq<ValidatorStakeInfo>
    requires HEADER_LEN + n * VALIDATOR_LEN <= |b|
  {
    seq(n, i requires 0 <= i < n => ValidatorAt(b, HEADER_LEN + i * VALIDATOR_LEN))
  }

  /** The first `n` credit records. */
  function CreditsIn(b: seq<byte>, n: nat): seq<CreditRecord>
    requires HEADER_LEN + n * CREDIT_LEN <= |b|
  {
    seq(n, i requires 0 <= i < n => CreditAt(b, HEADER_LEN + i * CREDIT_LEN))
  }

  function DeserializeCredits(b: seq<byte>): Result<(byte, seq<CreditRecord>), Error> {
    if |b| < CREDIT_LIST_LEN then Err(InvalidAccountData)
    else if b[0] == 0 then Ok((0, []))
    else if U16At(b, 1) > MAX_CREDIT_RECORDS then Err(InvalidAccountData)
    else Ok((b[0], CreditsIn(b, U16At(b, 1))))
  }

  /** Reading with the cursors `from` and `to`. */
  method LoadValidators(b: seq<byte>) returns (r: Result<(byte, seq<ValidatorStakeInfo>), Error>)
    ensures r == DeserializeValidators(b)
    ensures r.Err? <==> |b| < VALIDATOR_LIST_LEN || (b[0] != 0 && U16At(b, 1) > MAX_VALIDATORS)
    ensures r.Ok? ==> r.value.0 == b[0] && (b[0] == 0 ==> r.value.1 == [])
    ensures r.Ok? && b[0] != 0 ==> 3 + 56 * U16At(b, 1) <= |b| && r.value.1 == ReadValidators(b)
  {
    if |b| < VALIDATOR_LIST_LEN {
      return Err(InvalidAccountData);
    }
    if b[0] == 0 {
      return Ok((0, []));
    }
    var n := U16At(b, 1);
    if n > MAX_VALIDATORS {
      return Err(InvalidAccountData);
    }
    var list: seq<ValidatorStakeInfo> := [];
    var from := HEADER_LEN;
    var to := from + VALIDATOR_LEN;
    for i := 0 to n
      invariant from == HEADER_LEN + i * VALIDATOR_LEN && to == from + VALIDATOR_LEN && |list| == i
      invariant forall k :: 0 <= k < i ==> list[k] == ValidatorAt(b, HEADER_LEN + k * VALIDATOR_LEN)
    {
      var record := b[from..to];
      SliceValidator(b, from);
      list := list + [ValidatorAt(record, 0)];
      from, to := from + VALIDATOR_LEN, to + VALIDATOR_LEN;
    }
    assert list == ValidatorsIn(b, n);
    assert list == ReadValidators(b);
    return Ok((b[0], list));
  }

  method LoadCredits(b: seq<byte>) returns (r: Result<(byte, seq<CreditRecord>), Error>)
    ensures r == DeserializeCredits(b)
    ensures r.Err? <==> |b| < CREDIT_LIST_LEN || (b[0] != 0 && U16At(b, 1) > MAX_CREDIT_RECORDS)
    ensures r.Ok? ==> r.value.0 == b[0] && (b[0] == 0 ==> r.value.1 == [])
    ensures r.Ok? && b[0] != 0 ==> CreditsReadable(b, r.value.1)
  {
    if |b| < CREDIT_LIST_LEN {
      return Err(InvalidAccountData);
    }
    if b[0] == 0 {
      return Ok((0, []));
    }
    var n := U16At(b, 1);
    if n > MAX_CREDIT_RECORDS {
      return Err(InvalidAccountData);
    }
    var list: seq<CreditRecord> := [];
    var from := HEADER_LEN;
    var to := from + CREDIT_LEN;
    for i := 0 to n
      invariant from == HEADER_LEN + i * CREDIT_LEN && to == from + CREDIT_LEN && |list| == i
      invariant forall k :: 0 <= k < i ==> list[k] == CreditAt(b, HEADER_LEN + k * CREDIT_LEN)
    {
      var record := b[from..to];
      SliceCredit(b, from);
      list := list + [CreditAt(record, 0)];
      from, to := from + CREDIT_LEN, to + CREDIT_LEN;
    }
    assert list == CreditsIn(b, n);
    return Ok((b[0], list));
  }

  lemma {:induction false} SliceValidator(b: seq<byte>, p: nat)
    requires p + VALIDATOR_LEN <= |b|
    ensures ValidatorAt(b[p..p + VALIDATOR_LEN], 0) == ValidatorAt(b, p)
  {
    SubSlice(b, p, VALIDATOR_LEN, 0, 32);
    SubSlice(b, p, VALIDATOR_LEN, 32, 8);
    SubSlice(b, p, VALIDATOR_LEN, 40, 8);
    SubSlice(b, p, VALIDATOR_LEN, 48, 4);
  }

  lemma {:induction false} SliceCredit(b: seq<byte>, p: nat)
    requires p + CREDIT_LEN <= |b|
    ensures CreditAt(b[p..p + CREDIT_LEN], 0) == CreditAt(b, p)
  {
    SubSlice(b, p, CREDIT_LEN, 0, 32);
    SubSlice(b, p, CREDIT_LEN, 32, 32);
    SubSlice(b, p, CREDIT_LEN, 64, 8);
  }

  // ---- what the client reads

  /** The client's reader: a count at byte 1, then 56 bytes a validator. */
  function ReadValidators(b: seq<byte>): seq<ValidatorStakeInfo>
    requires 3 <= |b| && 3 + 56 * U16At(b, 1) <= |b|
  {
    seq(U16At(b, 1), i requires 0 <= i < U16At(b, 1) =>
      ValidatorStakeInfo(KeyAt(b, 3 + 56 * i), U64At(b, 3 + 56 * i + 32), U64At(b, 3 + 56 * i + 40),
                         U32At(b, 3 + 56 * i + 48)))
  }

  /** The client's reader of creditors moves a cursor by 32, 32 and 8 bytes. */
  method ReadCreditors(b: seq<byte>) returns (list: seq<CreditRecord>)
    requires 3 <= |b| && 3 + CREDIT_LEN * U16At(b, 1) <= |b|
    ensures |list| == U16At(b, 1)
    ensures forall k :: 0 <= k < |list| ==> list[k] == CreditAt(b, HEADER_LEN + k * CREDIT_LEN)
  {
    list := [];
    var p := 3;
    for i := 0 to U16At(b, 1)
      invariant p == HEADER_LEN + i * CREDIT_LEN && |list| == i
      invariant forall k :: 0 <= k < i ==> list[k] == CreditAt(b, HEADER_LEN + k * CREDIT_LEN)
    {
      var target := KeyAt(b, p);
      p := p + 32;
      var cancelAuthority := KeyAt(b, p);
      p := p + 32;
      var amount := U64At(b, p);
      p := p + 8;
      list := list + [CreditRecord(target, cancelAuthority, amount)];
    }
  }

  // ---- round trips

  /** Serializing a validator list of any contents within the limit into any account
      long enough: the program and the client read the same list back, and bytes
      past the last record are untouched. */
  method StoreValidators(version: byte, list: seq<ValidatorStakeInfo>, pad: nat -> Pad4, output: array<byte>)
    returns (r: Result<(), Error>)
    modifies output
    ensures r.Ok? <==> output.Length >= VALIDATOR_LIST_LEN && |list| <= MAX_VALIDATORS
    ensures r.Err? ==> output[..] == old(output[..])
    ensures r.Ok? ==>
              output[HEADER_LEN + VALIDATOR_LEN * |list|..] == old(output[HEADER_LEN + VALIDATOR_LEN * |list|..])
    ensures r.Ok? ==>
              DeserializeValidators(output[..]) == Ok(if version == 0 then (0, []) else (version, list))
    ensures r.Ok? ==> U16At(output[..], 1) == |list| && ReadValidators(output[..]) == list
  {
    if output.Length < VALIDATOR_LIST_LEN || |list| > MAX_VALIDATORS {
      return Err(InvalidAccountData);
    }
    var chunks := ValidatorChunks(list, pad);
    ValidatorChunksSized(list, pad);
    ghost var rest := output[HEADER_LEN + VALIDATOR_LEN * |list|..];
    SizedLength(chunks, VALIDATOR_LEN);
    WriteList(version, chunks, output);
    assert output[..] == ListImage(version, chunks) + rest;
    ValidatorsReadBack(version, list, pad, rest);
    return Ok(());
  }

  method StoreCredits(version: byte, list: seq<CreditRecord>, output: array<byte>) returns (r: Result<(), Error>)
    modifies output
    ensures r.Ok? <==> output.Length >= CREDIT_LIST_LEN && |list| <= MAX_CREDIT_RECORDS
    ensures r.Err? ==> output[..] == old(output[..])
    ensures r.Ok? ==> output[HEADER_LEN + CREDIT_LEN * |list|..] == old(output[HEADER_LEN + CREDIT_LEN * |list|..])
    ensures r.Ok? ==>
              DeserializeCredits(output[..]) == Ok(if version == 0 then (0, []) else (version, list))
    ensures r.Ok? ==> CreditsReadable(output[..], list)
  {
    if output.Length < CREDIT_LIST_LEN || |list| > MAX_CREDIT_RECORDS {
      return Err(InvalidAccountData);
    }
    var chunks := CreditChunks(list);
    CreditChunksSized(list);
    ghost var rest := output[HEADER_LEN + CREDIT_LEN * |list|..];
    SizedLength(chunks, CREDIT_LEN);
    WriteList(version, chunks, output);
    assert output[..] == ListImage(version, chunks) + rest;
    CreditsReadBack(version, list, rest);
    return Ok(());
  }

  lemma {:induction false} ValidatorChunksSized(list: seq<ValidatorStakeInfo>, pad: nat -> Pad4)
    ensures Sized(ValidatorChunks(list, pad), VALIDATOR_LEN)
  {
    forall i | 0 <= i < |list| ensures |ValidatorChunks(list, pad)[i]| == VALIDATOR_LEN {
      ValidatorRoundTrip(list[i], pad(i));
    }
  }

  lemma {:induction false} CreditChunksSized(list: seq<CreditRecord>)
    ensures Sized(CreditChunks(list), CREDIT_LEN)
  {
    forall i | 0 <= i < |list| ensures |CreditChunks(list)[i]| == CREDIT_LEN {
      CreditRoundTrip(list[i]);
    }
  }

  /** What both readers find where the client's reader looks. */
  ghost predicate CreditsReadable(b: seq<byte>, list: seq<CreditRecord>) {
    && 3 <= |b| && U16At(b, 1) == |list| && 3 + CREDIT_LEN * |list| <= |b|
    && (forall k :: 0 <= k < |list| ==> CreditAt(b, HEADER_LEN + k * CREDIT_LEN) == list[k])
  }

  lemma {:induction false} ValidatorReadBack(version: byte, list: seq<ValidatorStakeInfo>, pad: nat -> Pad4,
                                             rest: seq<byte>, k: nat)
    requires k < |list|
    ensures var b := ListImage(version, ValidatorChunks(list, pad)) + rest;
            && HEADER_LEN + k * VALIDATOR_LEN + VALIDATOR_LEN <= |b|
            && ValidatorAt(b, HEADER_LEN + k * VALIDATOR_LEN) == list[k]
  {
    hide ListImage, Concat, ValidatorAt, ValidatorFields;
    var chunks := ValidatorChunks(list, pad);
    ValidatorChunksSized(list, pad);
    ChunkAt(version, chunks, VALIDATOR_LEN, k, rest);
    SliceValidator(ListImage(version, chunks) + rest, HEADER_LEN + k * VALIDATOR_LEN);
    ValidatorRoundTrip(list[k], pad(k));
  }

  lemma {:induction false} ValidatorsReadBack(version: byte, list: seq<ValidatorStakeInfo>, pad: nat -> Pad4,
                                              rest: seq<byte>)
    requires |list| <= MAX_VALIDATORS
    ensures var b := ListImage(version, ValidatorChunks(list, pad)) + rest;
            && |b| == HEADER_LEN + VALIDATOR_LEN * |list| + |rest|
            && U16At(b, 1) == |list|
            && ReadValidators(b) == list
            && (|b| >= VALIDATOR_LIST_LEN ==>
                  DeserializeValidators(b) == Ok(if version == 0 then (0, []) else (version, list)))
  {
    hide Concat, ToBytes, U16At, U32At, U64At;
    var chunks := ValidatorChunks(list, pad);
    var b := ListImage(version, chunks) + rest;
    ValidatorChunksSized(list, pad);
    SizedLength(chunks, VALIDATOR_LEN);
    HeaderAt(version, chunks, rest);
    forall k | 0 <= k < |list|
      ensures HEADER_LEN + k * VALIDATOR_LEN + VALIDATOR_LEN <= |b|
      ensures ValidatorAt(b, HEADER_LEN + k * VALIDATOR_LEN) == list[k]
    {
      ValidatorReadBack(version, list, pad, rest, k);
    }
    assert ValidatorsIn(b, |list|) == list;
  }

  lemma {:induction false} CreditReadBack(version: byte, list: seq<CreditRecord>, rest: seq<byte>, k: nat)
    requires k < |list|
    ensures var b := ListImage(version, CreditChunks(list)) + rest;
            && HEADER_LEN + k * CREDIT_LEN + CREDIT_LEN <= |b|
            && CreditAt(b, HEADER_LEN + k * CREDIT_LEN) == list[k]
  {
    hide ListImage, Concat, CreditAt, CreditFields;
    var chunks := CreditChunks(list);
    CreditChunksSized(list);
    ChunkAt(version, chunks, CREDIT_LEN, k, rest);
    SliceCredit(ListImage(version, chunks) + rest, HEADER_LEN + k * CREDIT_LEN);
    CreditRoundTrip(list[k]);
  }

  lemma {:induction false} CreditsReadBack(version: byte, list: seq<CreditRecord>, rest: seq<byte>)
    requires |list| <= MAX_CREDIT_RECORDS
    ensures var b := ListImage(version, CreditChunks(list)) + rest;
            && |b| == HEADER_LEN + CREDIT_LEN * |list| + |rest|
            && CreditsReadable(b, list)
            && (|b| >= CREDIT_LIST_LEN ==>
                  DeserializeCredits(b) == Ok(if version == 0 then (0, []) else (version, list)))
  {
    hide Concat, ToBytes, U16At, U64At;
    var chunks := CreditChunks(list);
    var b := ListImage(version, chunks) + rest;
    CreditChunksSized(list);
    SizedLength(chunks, CREDIT_LEN);
    HeaderAt(version, chunks, rest);
    forall k | 0 <= k < |list|
      ensures HEADER_LEN + k * CREDIT_LEN + CREDIT_LEN <= |b|
      ensures CreditAt(b, HEADER_LEN + k * CREDIT_LEN) == list[k]
    {
      CreditReadBack(version, list, rest, k);
    }
    assert CreditsIn(b, |list|) == list;
  }

  // ---- the pool account

  function PoolFields(p: StakePool, pad: Pad5): seq<seq<byte>> {
    [[p.version], p.owner.bytes, [p.depositBumpSeed], [p.withdrawBumpSeed], p.validatorStakeList.bytes,
     p.creditList.bytes, p.poolMint.bytes, p.ownerFeeAccount.bytes, p.creditReserve.bytes, p.tokenProgramId.bytes, pad,
     ToBytes(p.stakeTotal, 8), ToBytes(p.poolTotal, 8), ToBytes(p.lastUpdateEpoch, 8),
     ToBytes(p.fee.denominator, 8), ToBytes(p.fee.numerator, 8)]
  }

  function DeserializePool(b: seq<byte>): Result<StakePool, Error> {
    if |b| < POOL_LEN then Err(InvalidAccountData)
    else Ok(StakePool(
      b[0], KeyAt(b, 1), b[33], b[34], KeyAt(b, 35), KeyAt(b, 67), KeyAt(b, 99), KeyAt(b, 131),
      KeyAt(b, 163), KeyAt(b, 195),
      U64At(b, 232), U64At(b, 240), U64At(b, 248), Fee(U64At(b, 256), U64At(b, 264))))
  }

  /** What the client's `parseState` returns; it skips the bump seeds. */
  datatype PoolState = PoolState(
    version: byte, owner: Pubkey, validatorStakeList: Pubkey, creditList: Pubkey, poolMint: Pubkey,
    ownerFeeAccount: Pubkey, creditReserve: Pubkey, tokenProgram: Pubkey,
    stakeTotal: u64, poolTotal: u64, lastEpochUpdate: u64, feeDenominator: u64, feeNumerator: u64)

  function ParseState(b: seq<byte>): PoolState
    requires POOL_LEN <= |b|
  {
    PoolState(b[0], KeyAt(b, 1), KeyAt(b, 35), KeyAt(b, 67), KeyAt(b, 99), KeyAt(b, 131), KeyAt(b, 163), KeyAt(b, 195),
              U64At(b, 232), U64At(b, 240), U64At(b, 248), U64At(b, 256), U64At(b, 264))
  }

  lemma {:induction false} PoolOffsets(p: StakePool, pad: Pad5)
    ensures var f := PoolFields(p, pad);
            && Offset(f, 0) == 0 && Offset(f, 1) == 1 && Offset(f, 2) == 33 && Offset(f, 3) == 34 && Offset(f, 4) == 35
            && Offset(f, 5) == 67 && Offset(f, 6) == 99 && Offset(f, 7) == 131 && Offset(f, 8) == 163
            && Offset(f, 9) == 195 && Offset(f, 10) == 227 && Offset(f, 11) == 232
            && Offset(f, 12) == 240 && Offset(f, 13) == 248
            && Offset(f, 14) == 256 && Offset(f, 15) == 264 && Offset(f, 16) == POOL_LEN
    ensures |Concat(PoolFields(p, pad))| == POOL_LEN
  {
    var f := PoolFields(p, pad);
    ConcatLength(f, 16);
    assert f[..16] == f;
    assert Offset(f, 2) == 33 by { assert Offset(f, 1) == 1; }
    assert Offset(f, 4) == 35 by { assert Offset(f, 3) == 34; }
    assert Offset(f, 6) == 99 by { assert Offset(f, 5) == 67; }
    assert Offset(f, 8) == 163 by { assert Offset(f, 7) == 131; }
    assert Offset(f, 10) == 227 by { assert Offset(f, 9) == 195; }
    assert Offset(f, 12) == 240 by { assert Offset(f, 11) == 232; }
    assert Offset(f, 14) == 256 by { assert Offset(f, 13) == 248; }
  }

  lemma {:induction false} PoolNumberAt(p: StakePool, pad: Pad5, rest: seq<byte>, k: nat, n: u64)
    requires 11 <= k < 16 && PoolFields(p, pad)[k] == ToBytes(n, 8)
    ensures Offset(PoolFields(p, pad), k) + 8 <= |Concat(PoolFields(p, pad)) + rest|
    ensures U64At(Concat(PoolFields(p, pad)) + rest, Offset(PoolFields(p, pad), k)) == n
  {
    FieldAt(PoolFields(p, pad), k, rest);
    U64RoundTrip(n);
  }

  /** The pool record read back by the program, and by the client. */
  lemma {:induction false} PoolRoundTrip(p: StakePool, pad: Pad5, rest: seq<byte>)
    ensures var b := Concat(PoolFields(p, pad)) + rest;
            && |b| == POOL_LEN + |rest|
            && DeserializePool(b) == Ok(p)
            && ParseState(b) == PoolState(p.version, p.owner, p.validatorStakeList, p.creditList, p.poolMint,
                                          p.ownerFeeAccount, p.creditReserve, p.tokenProgramId,
                                          p.stakeTotal, p.poolTotal, p.lastUpdateEpoch,
                                          p.fee.denominator, p.fee.numerator)
  {
    hide Concat, U64At, ToBytes, Offset;
    var f := PoolFields(p, pad);
    PoolOffsets(p, pad);
    PoolByteAt(p, pad, rest, 0, p.version);
    PoolByteAt(p, pad, rest, 2, p.depositBumpSeed);
    PoolByteAt(p, pad, rest, 3, p.withdrawBumpSeed);
    FieldAt(f, 1, rest);
    FieldAt(f, 4, rest);
    FieldAt(f, 5, rest);
    FieldAt(f, 6, rest);
    FieldAt(f, 7, rest);
    FieldAt(f, 8, rest);
    FieldAt(f, 9, rest);
    PoolNumberAt(p, pad, rest, 11, p.stakeTotal);
    PoolNumberAt(p, pad, rest, 12, p.poolTotal);
    PoolNumberAt(p, pad, rest, 13, p.lastUpdateEpoch);
    PoolNumberAt(p, pad, rest, 14, p.fee.denominator);
    PoolNumberAt(p, pad, rest, 15, p.fee.numerator);
  }

  lemma {:induction false} PoolByteAt(p: StakePool, pad: Pad5, rest: seq<byte>, k: nat, x: byte)
    requires k < 16 && PoolFields(p, pad)[k] == [x]
    ensures Offset(PoolFields(p, pad), k) < |Concat(PoolFields(p, pad))|
    ensures (Concat(PoolFields(p, pad)) + rest)[Offset(PoolFields(p, pad), k)] == x
  {
    hide Offset, Concat;
    FieldAt(PoolFields(p, pad), k, rest);
    var b, o := Concat(PoolFields(p, pad)) + rest, Offset(PoolFields(p, pad), k);
    assert b[o..o + 1][0] == b[o];
  }

  /** Storing the pool record touches its own bytes only. */
  method StorePool(p: StakePool, pad: Pad5, output: array<byte>) returns (r: Result<(), Error>)
    modifies output
    ensures r.Ok? <==> output.Length >= POOL_LEN
    ensures r.Err? ==> output[..] == old(output[..])
    ensures r.Ok? ==> DeserializePool(output[..]) == Ok(p) && output[POOL_LEN..] == old(output[POOL_LEN..])
  {
    if output.Length < POOL_LEN {
      return Err(InvalidAccountData);
    }
    var image := Concat(PoolFields(p, pad));
    PoolOffsets(p, pad);
    ghost var rest := output[POOL_LEN..];
    WriteAt(output, 0, image);
    assert output[..] == image + rest;
    PoolRoundTrip(p, pad, rest);
    return Ok(());
  }
}
