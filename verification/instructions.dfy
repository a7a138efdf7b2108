/** The program's instruction format: what the client encodes, what the program decodes,
    and the account keys that go with it. */
module Instructions {
  import opened Machine
  import opened Data
  import opened Ledger
  import opened Staking
  import opened Wire
  import Storage
  import P = Planner
  import Q = PlannerProofs

  datatype PoolInstruction =
    | Initialize(fee: Fee)
    | AddValidator
    | RemoveValidator
    | UpdateListBalance
    | UpdatePoolBalance
    | Deposit(amount: u64)
    | Withdraw(amount: u64)
    | SetStakingAuthority
    | SetOwner
    | Credit(amount: u64)
    | Uncredit(amount: u64)
    | DelegateReserve(delegations: seq<DelegateReserveInstruction>)
    | MergeStakes(merges: seq<MergeStakesInstruction>)
    | Unstake(unstakes: seq<UnstakeInstruction>)
    | PayCreditors

  const BATCH_HEADER := 5
  const DELEGATE_LEN := 12
  const MERGE_LEN := 40
  const UNSTAKE_LEN := 48

  function DelegateAt(b: seq<byte>, p: nat): DelegateReserveInstruction
    requires p + DELEGATE_LEN <= |b|
  {
    DelegateReserveInstruction(U64At(b, p), U32At(b, p + 8))
  }

  function MergeAt(b: seq<byte>, p: nat): MergeStakesInstruction
    requires p + MERGE_LEN <= |b|
  {
    MergeStakesInstruction(Storage.KeyAt(b, p), U32At(b, p + 32), U32At(b, p + 36))
  }

  function UnstakeAt(b: seq<byte>, p: nat): UnstakeInstruction
    requires p + UNSTAKE_LEN <= |b|
  {
    UnstakeInstruction(Storage.KeyAt(b, p), U32At(b, p + 32), U32At(b, p + 36), U64At(b, p + 40))
  }

  function DelegatesIn(b: seq<byte>, n: nat): seq<DelegateReserveInstruction>
    requires BATCH_HEADER + n * DELEGATE_LEN <= |b|
  {
    seq(n, i requires 0 <= i < n => DelegateAt(b, BATCH_HEADER + i * DELEGATE_LEN))
  }

  function MergesIn(b: seq<byte>, n: nat): seq<MergeStakesInstruction>
    requires BATCH_HEADER + n * MERGE_LEN <= |b|
  {
    seq(n, i requires 0 <= i < n => MergeAt(b, BATCH_HEADER + i * MERGE_LEN))
  }

  function UnstakesIn(b: seq<byte>, n: nat): seq<UnstakeInstruction>
    requires BATCH_HEADER + n * UNSTAKE_LEN <= |b|
  {
    seq(n, i requires 0 <= i < n => UnstakeAt(b, BATCH_HEADER + i * UNSTAKE_LEN))
  }

  /** The batch header: a 32-bit count, room for that many records, and a byte to
      point at, without which taking the address of the first record panics. */
  function BatchCount(b: seq<byte>, size: nat): Result<u32, Error> {
    if |b| < BATCH_HEADER then Err(InvalidAccountData)
    else if |b| < BATCH_HEADER + U32At(b, 1) * size then Err(InvalidArgument)
    else if |b| == BATCH_HEADER then Err(ProgramPanicked)
    else Ok(U32At(b, 1))
  }

  function Deserialize(b: seq<byte>): Result<PoolInstruction, Error> {
    if |b| < 1 then Err(InvalidAccountData)
    else if b[0] == 0 then
      if |b| < 17 then Err(InvalidAccountData) else Ok(Initialize(Fee(U64At(b, 1), U64At(b, 9))))
    else if b[0] == 2 then Ok(AddValidator)
    else if b[0] == 3 then Ok(RemoveValidator)
    else if b[0] == 4 then Ok(UpdateListBalance)
    else if b[0] == 5 then Ok(UpdatePoolBalance)
    else if b[0] in {6, 7, 10, 11} then
      if |b| < 9 then Err(InvalidAccountData)
      else if b[0] == 6 then Ok(Deposit(U64At(b, 1)))
      else if b[0] == 7 then Ok(Withdraw(U64At(b, 1)))
      else if b[0] == 10 then Ok(Credit(U64At(b, 1)))
      else Ok(Uncredit(U64At(b, 1)))
    else if b[0] == 8 then Ok(SetStakingAuthority)
    else if b[0] == 9 then Ok(SetOwner)
    else if b[0] == 12 then
      var n :- BatchCount(b, DELEGATE_LEN); Ok(DelegateReserve(DelegatesIn(b, n)))
    else if b[0] == 13 then
      var n :- BatchCount(b, MERGE_LEN); Ok(MergeStakes(MergesIn(b, n)))
    else if b[0] == 14 then
      var n :- BatchCount(b, UNSTAKE_LEN); Ok(Unstake(UnstakesIn(b, n)))
    else if b[0] == 15 then Ok(PayCreditors)
    else Err(InvalidAccountData)
  }

  // ---- encoding

  function BatchImage(tag: byte, chunks: seq<seq<byte>>): seq<byte> {
    BatchHead(tag, |chunks|) + Concat(chunks)
  }

  function BatchHead(tag: byte, count: nat): seq<byte> {
    [tag] + ToBytes(count, 4)
  }

  function DelegateChunk(p: P.PlannedDelegation): seq<byte> {
    ToBytes(p.amount, 8) + ToBytes(p.stakeIndex, 4)
  }

  function MergeChunk(p: P.StakePair): seq<byte> {
    p.validator.bytes + ToBytes(p.mainIndex, 4) + ToBytes(p.additionalIndex, 4)
  }

  /** What the client plans to unstake; absent fields are JavaScript's undefined. */
  datatype PlannedUnstake = PlannedUnstake(
    validator: Pubkey, sourceIndex: u32, splitIndex: Option<u32>, amount: Option<u64>)

  /** `splitIndex || sourceIndex`: index 0 reads as absent. */
  function EncodedSplit(u: PlannedUnstake): u32 {
    if u.splitIndex.Some? && u.splitIndex.value != 0 then u.splitIndex.value else u.sourceIndex
  }

  function EncodedAmount(u: PlannedUnstake): u64 {
    if u.amount.Some? then u.amount.value else 0
  }

  function UnstakeChunk(u: PlannedUnstake): seq<byte> {
    u.validator.bytes + ToBytes(u.sourceIndex, 4) + ToBytes(EncodedSplit(u), 4) + ToBytes(EncodedAmount(u), 8)
  }

  /** The keys pushed for one entry: a second one only for a truthy split index. */
  function UnstakeKeysOf(u: PlannedUnstake): seq<Address> {
    [Pda(StakeKey(u.validator, u.sourceIndex))] +
    (if u.splitIndex.Some? && u.splitIndex.value != 0 then [Pda(StakeKey(u.validator, u.splitIndex.value))] else [])
  }

  function DelegateChunks(plan: seq<P.PlannedDelegation>): seq<seq<byte>> {
    seq(|plan|, i requires 0 <= i < |plan| => DelegateChunk(plan[i]))
  }

  function MergeChunks(plan: seq<P.StakePair>): seq<seq<byte>> {
    seq(|plan|, i requires 0 <= i < |plan| => MergeChunk(plan[i]))
  }

  function UnstakeChunks(plan: seq<PlannedUnstake>): seq<seq<byte>> {
    seq(|plan|, i requires 0 <= i < |plan| => UnstakeChunk(plan[i]))
  }

  function UnstakeKeys(plan: seq<PlannedUnstake>): seq<Address> {
    if plan == [] then [] else UnstakeKeysOf(plan[0]) + UnstakeKeys(plan[1..])
  }

  lemma {:induction false} KeysSnoc(plan: seq<P.PlannedDelegation>, p: P.PlannedDelegation)
    ensures Q.Keys(plan + [p]) == Q.Keys(plan) + [Wallet(p.address), Pda(StakeKey(p.address, p.stakeIndex))]
  {
    if plan != [] {
      assert (plan + [p])[1..] == plan[1..] + [p];
      KeysSnoc(plan[1..], p);
    }
  }

  lemma {:induction false} MergeKeysSnoc(plan: seq<P.StakePair>, p: P.StakePair)
    ensures Q.MergeKeys(plan + [p])
         == Q.MergeKeys(plan) + [Pda(StakeKey(p.validator, p.mainIndex)), Pda(StakeKey(p.validator, p.additionalIndex))]
  {
    if plan != [] {
      assert (plan + [p])[1..] == plan[1..] + [p];
      MergeKeysSnoc(plan[1..], p);
    }
  }

  lemma {:induction false} UnstakeKeysSnoc(plan: seq<PlannedUnstake>, u: PlannedUnstake)
    ensures UnstakeKeys(plan + [u]) == UnstakeKeys(plan) + UnstakeKeysOf(u)
  {
    if plan == [] {
      assert plan + [u] == [u];
      assert [u][1..] == [];
    } else {
      assert (plan + [u])[1..] == plan[1..] + [u];
      UnstakeKeysSnoc(plan[1..], u);
    }
  }

  /** The header, then one record after the other at cursor `p`. */
  ghost predicate Written(data: array<byte>, tag: byte, chunks: seq<seq<byte>>, i: nat, p: nat)
    reads data
    requires i <= |chunks|
  {
    p <= data.Length && data[..p] == BatchHead(tag, |chunks|) + Concat(chunks[..i])
  }

  method StartBatch(data: array<byte>, tag: byte, ghost chunks: seq<seq<byte>>, count: nat) returns (p: nat)
    requires data.Length >= BATCH_HEADER && count == |chunks|
    modifies data
    ensures p == BATCH_HEADER && Written(data, tag, chunks, 0, p)
  {
    data[0] := tag;
    WriteAt(data, 1, ToBytes(count, 4));
    assert chunks[..0] == [];
    p := 5;
  }

  method PutRecord(data: array<byte>, p: nat, record: seq<byte>, tag: byte, ghost chunks: seq<seq<byte>>, ghost i: nat)
    returns (p': nat)
    requires i < |chunks| && chunks[i] == record && Written(data, tag, chunks, i, p)
    requires data.Length == |BatchImage(tag, chunks)|
    modifies data
    ensures Written(data, tag, chunks, i + 1, p')
  {
    NextField(chunks, i);
    ghost var head := data[..p];
    WriteAt(data, p, record);
    p' := p + |record|;
    assert data[..p'] == head + record;
  }

  lemma {:induction false} WholeBatch(data: seq<byte>, tag: byte, chunks: seq<seq<byte>>, p: nat)
    requires p <= |data| == |BatchImage(tag, chunks)|
    requires data[..p] == BatchHead(tag, |chunks|) + Concat(chunks[..|chunks|])
    ensures data == BatchImage(tag, chunks)
  {
    assert chunks[..|chunks|] == chunks;
    assert data[..p] == data;
  }

  method EncodeDelegateReserve(plan: seq<P.PlannedDelegation>) returns (data: array<byte>, keys: seq<Address>)
    ensures data[..] == BatchImage(12, DelegateChunks(plan)) && keys == Q.Keys(plan)
    ensures 0 < |plan| < U32_LIMIT ==> Deserialize(data[..]) == Ok(DelegateReserve(Q.Instructions(plan)))
  {
    ghost var chunks := DelegateChunks(plan);
    SizedLength(chunks, DELEGATE_LEN);
    data := new byte[1 + 4 + (8 + 4) * |plan|](_ => 0);
    var p := StartBatch(data, 12, chunks, |plan|);
    keys := [];
    for i := 0 to |plan|
      invariant Written(data, 12, chunks, i, p) && data.Length == |BatchImage(12, chunks)|
      invariant keys == Q.Keys(plan[..i])
    {
      var e := plan[i];
      p := PutRecord(data, p, ToBytes(e.amount, 8) + ToBytes(e.stakeIndex, 4), 12, chunks, i);
      assert plan[..i + 1] == plan[..i] + [e];
      KeysSnoc(plan[..i], e);
      keys := keys + [Wallet(e.address), Pda(StakeKey(e.address, e.stakeIndex))];
    }
    assert plan[..|plan|] == plan;
    WholeBatch(data[..], 12, chunks, p);
    if 0 < |plan| < U32_LIMIT {
      DelegateRoundTrip(plan);
    }
  }

  method EncodeMergeStakes(plan: seq<P.StakePair>) returns (data: array<byte>, keys: seq<Address>)
    ensures data[..] == BatchImage(13, MergeChunks(plan)) && keys == Q.MergeKeys(plan)
    ensures 0 < |plan| < U32_LIMIT ==> Deserialize(data[..]) == Ok(MergeStakes(Q.MergeInstructions(plan)))
  {
    ghost var chunks := MergeChunks(plan);
    SizedLength(chunks, MERGE_LEN);
    data := new byte[1 + 4 + (32 + 4 + 4) * |plan|](_ => 0);
    var p := StartBatch(data, 13, chunks, |plan|);
    keys := [];
    for i := 0 to |plan|
      invariant Written(data, 13, chunks, i, p) && data.Length == |BatchImage(13, chunks)|
      invariant keys == Q.MergeKeys(plan[..i])
    {
      var e := plan[i];
      var record := e.validator.bytes + ToBytes(e.mainIndex, 4) + ToBytes(e.additionalIndex, 4);
      p := PutRecord(data, p, record, 13, chunks, i);
      assert plan[..i + 1] == plan[..i] + [e];
      MergeKeysSnoc(plan[..i], e);
      keys := keys + [Pda(StakeKey(e.validator, e.mainIndex)), Pda(StakeKey(e.validator, e.additionalIndex))];
    }
    assert plan[..|plan|] == plan;
    WholeBatch(data[..], 13, chunks, p);
    if 0 < |plan| < U32_LIMIT {
      MergeRoundTrip(plan);
    }
  }

  method EncodeUnstake(plan: seq<PlannedUnstake>) returns (data: array<byte>, keys: seq<Address>)
    ensures data[..] == BatchImage(14, UnstakeChunks(plan)) && keys == UnstakeKeys(plan)
    ensures 0 < |plan| < U32_LIMIT ==> Deserialize(data[..]) == Ok(Unstake(UnstakesEncoded(plan)))
  {
    ghost var chunks := UnstakeChunks(plan);
    SizedLength(chunks, UNSTAKE_LEN);
    data := new byte[1 + 4 + (32 + 4 + 4 + 8) * |plan|](_ => 0);
    var p := StartBatch(data, 14, chunks, |plan|);
    keys := [];
    for i := 0 to |plan|
      invariant Written(data, 14, chunks, i, p) && data.Length == |BatchImage(14, chunks)|
      invariant keys == UnstakeKeys(plan[..i])
    {
      var u := plan[i];
      p := PutRecord(data, p, UnstakeChunk(u), 14, chunks, i);
      assert plan[..i + 1] == plan[..i] + [u];
      UnstakeKeysSnoc(plan[..i], u);
      keys := keys + [Pda(StakeKey(u.validator, u.sourceIndex))];
      if u.splitIndex.Some? && u.splitIndex.value != 0 {
        keys := keys + [Pda(StakeKey(u.validator, u.splitIndex.value))];
      }
    }
    assert plan[..|plan|] == plan;
    WholeBatch(data[..], 14, chunks, p);
    if 0 < |plan| < U32_LIMIT {
      UnstakeRoundTrip(plan);
    }
  }

  // ---- decoding what was encoded

  lemma {:induction false} RecordAt(tag: byte, chunks: seq<seq<byte>>, size: nat, k: nat)
    requires Sized(chunks, size) && k < |chunks|
    ensures var p := BATCH_HEADER + k * size;
            p + size <= |BatchImage(tag, chunks)| && BatchImage(tag, chunks)[p..p + size] == chunks[k]
  {
    FieldAt(chunks, k, []);
    SizedOffset(chunks, size, k);
    assert Concat(chunks) + [] == Concat(chunks);
    var bytes, q := BatchImage(tag, chunks), k * size;
    assert bytes[BATCH_HEADER + q..BATCH_HEADER + q + size] == Concat(chunks)[q..q + size];
  }

  lemma {:induction false} CountRead(tag: byte, chunks: seq<seq<byte>>, size: nat)
    requires Sized(chunks, size) && 0 < |chunks| < U32_LIMIT && 0 < size
    ensures var b := BatchImage(tag, chunks);
            b[0] == tag && |b| == BATCH_HEADER + |chunks| * size && BatchCount(b, size) == Ok(|chunks|)
  {
    var b := BatchImage(tag, chunks);
    SizedLength(chunks, size);
    assert b[1..5] == ToBytes(|chunks|, 4);
    U32RoundTrip(|chunks|);
    assert |chunks| * size > 0;
  }

  lemma {:induction false} DelegateRead(b: seq<byte>, p: nat, e: P.PlannedDelegation)
    requires p + DELEGATE_LEN <= |b| && b[p..p + DELEGATE_LEN] == DelegateChunk(e)
    ensures DelegateAt(b, p) == DelegateReserveInstruction(e.amount, e.stakeIndex)
  {
    var c := DelegateChunk(e);
    SubSlice(b, p, DELEGATE_LEN, 0, 8);
    SubSlice(b, p, DELEGATE_LEN, 8, 4);
    assert c[0..8] == ToBytes(e.amount, 8) && c[8..12] == ToBytes(e.stakeIndex, 4);
    U64RoundTrip(e.amount);
    U32RoundTrip(e.stakeIndex);
  }

  lemma {:induction false} MergeRead(b: seq<byte>, p: nat, e: P.StakePair)
    requires p + MERGE_LEN <= |b| && b[p..p + MERGE_LEN] == MergeChunk(e)
    ensures MergeAt(b, p) == MergeStakesInstruction(e.validator, e.mainIndex, e.additionalIndex)
  {
    var c := MergeChunk(e);
    SubSlice(b, p, MERGE_LEN, 0, 32);
    SubSlice(b, p, MERGE_LEN, 32, 4);
    SubSlice(b, p, MERGE_LEN, 36, 4);
    assert c[0..32] == e.validator.bytes;
    assert c[32..36] == ToBytes(e.mainIndex, 4) && c[36..40] == ToBytes(e.additionalIndex, 4);
    U32RoundTrip(e.mainIndex);
    U32RoundTrip(e.additionalIndex);
  }

  function UnstakeEncoded(u: PlannedUnstake): UnstakeInstruction {
    UnstakeInstruction(u.validator, u.sourceIndex, EncodedSplit(u), EncodedAmount(u))
  }

  lemma {:induction false} UnstakeRead(b: seq<byte>, p: nat, u: PlannedUnstake)
    requires p + UNSTAKE_LEN <= |b| && b[p..p + UNSTAKE_LEN] == UnstakeChunk(u)
    ensures UnstakeAt(b, p) == UnstakeEncoded(u)
  {
    var c := UnstakeChunk(u);
    SubSlice(b, p, UNSTAKE_LEN, 0, 32);
    SubSlice(b, p, UNSTAKE_LEN, 32, 4);
    SubSlice(b, p, UNSTAKE_LEN, 36, 4);
    SubSlice(b, p, UNSTAKE_LEN, 40, 8);
    assert c[0..32] == u.validator.bytes && c[32..36] == ToBytes(u.sourceIndex, 4)
        && c[36..40] == ToBytes(EncodedSplit(u), 4) && c[40..48] == ToBytes(EncodedAmount(u), 8);
    U32RoundTrip(u.sourceIndex);
    U32RoundTrip(EncodedSplit(u));
    U64RoundTrip(EncodedAmount(u));
  }

  /** Every non-empty delegation plan decodes to its own entries. */
  lemma {:induction false} DelegateRoundTrip(plan: seq<P.PlannedDelegation>)
    requires 0 < |plan| < U32_LIMIT
    ensures Deserialize(BatchImage(12, DelegateChunks(plan))) == Ok(DelegateReserve(Q.Instructions(plan)))
  {
    hide BatchImage, U32At, U64At;
    var chunks := DelegateChunks(plan);
    var b := BatchImage(12, chunks);
    CountRead(12, chunks, DELEGATE_LEN);
    forall i | 0 <= i < |plan|
      ensures DelegatesIn(b, |plan|)[i] == Q.Instructions(plan)[i]
    {
      RecordAt(12, chunks, DELEGATE_LEN, i);
      DelegateRead(b, BATCH_HEADER + i * DELEGATE_LEN, plan[i]);
    }
    assert DelegatesIn(b, |plan|) == Q.Instructions(plan);
  }

  /** Every non-empty merge plan decodes to its own pairs. */
  lemma {:induction false} MergeRoundTrip(plan: seq<P.StakePair>)
    requires 0 < |plan| < U32_LIMIT
    ensures Deserialize(BatchImage(13, MergeChunks(plan))) == Ok(MergeStakes(Q.MergeInstructions(plan)))
  {
    hide BatchImage, U32At, U64At;
    var chunks := MergeChunks(plan);
    var b := BatchImage(13, chunks);
    CountRead(13, chunks, MERGE_LEN);
    forall i | 0 <= i < |plan|
      ensures MergesIn(b, |plan|)[i] == Q.MergeInstructions(plan)[i]
    {
      RecordAt(13, chunks, MERGE_LEN, i);
      MergeRead(b, BATCH_HEADER + i * MERGE_LEN, plan[i]);
    }
    assert MergesIn(b, |plan|) == Q.MergeInstructions(plan);
  }

  function UnstakesEncoded(plan: seq<PlannedUnstake>): seq<UnstakeInstruction> {
    seq(|plan|, i requires 0 <= i < |plan| => UnstakeEncoded(plan[i]))
  }

  /** Every non-empty unstake plan decodes to what its fields were taken to mean. */
  lemma {:induction false} UnstakeRoundTrip(plan: seq<PlannedUnstake>)
    requires 0 < |plan| < U32_LIMIT
    ensures Deserialize(BatchImage(14, UnstakeChunks(plan))) == Ok(Unstake(UnstakesEncoded(plan)))
  {
    hide BatchImage, U32At, U64At;
    var chunks := UnstakeChunks(plan);
    var b := BatchImage(14, chunks);
    CountRead(14, chunks, UNSTAKE_LEN);
    forall i | 0 <= i < |plan|
      ensures UnstakesIn(b, |plan|)[i] == UnstakesEncoded(plan)[i]
    {
      RecordAt(14, chunks, UNSTAKE_LEN, i);
      UnstakeRead(b, BATCH_HEADER + i * UNSTAKE_LEN, plan[i]);
    }
    assert UnstakesIn(b, |plan|) == UnstakesEncoded(plan);
  }

  /** An empty batch is never accepted: the decoder panics on it. */
  lemma {:induction false} EmptyBatchPanics(tag: byte)
    requires tag in {12, 13, 14}
    ensures Deserialize(BatchImage(tag, [])) == Err(ProgramPanicked)
  {
    var b := BatchImage(tag, []);
    assert b[1..5] == ToBytes(0, 4);
    U32RoundTrip(0);
  }

  // ---- the client's other instructions

  /** A tag with a 64-bit amount after it. */
  function AmountImage(tag: byte, amount: u64): seq<byte> {
    [tag] + ToBytes(amount, 8)
  }

  function InitializeImage(fee: Fee): seq<byte> {
    [0] + ToBytes(fee.denominator, 8) + ToBytes(fee.numerator, 8)
  }

  /** The client credits a positive amount and uncredits a negative one. */
  function CreditImage(amount: int): seq<byte>
    requires -U64_LIMIT < amount < U64_LIMIT
  {
    if amount >= 0 then AmountImage(10, amount) else AmountImage(11, -amount)
  }

  lemma {:induction false} AmountRead(tag: byte, amount: u64)
    ensures |AmountImage(tag, amount)| == 9 && AmountImage(tag, amount)[0] == tag
    ensures U64At(AmountImage(tag, amount), 1) == amount
  {
    assert AmountImage(tag, amount)[1..9] == ToBytes(amount, 8);
    U64RoundTrip(amount);
  }

  /** Each decodes to the instruction of its name, with its amount. */
  lemma {:induction false} SingleRoundTrips(amount: u64, fee: Fee)
    ensures Deserialize(InitializeImage(fee)) == Ok(Initialize(fee))
    ensures Deserialize([2]) == Ok(AddValidator) && Deserialize([3]) == Ok(RemoveValidator)
    ensures Deserialize([4]) == Ok(UpdateListBalance) && Deserialize([5]) == Ok(UpdatePoolBalance)
    ensures Deserialize(AmountImage(6, amount)) == Ok(Deposit(amount))
    ensures Deserialize(AmountImage(7, amount)) == Ok(Withdraw(amount))
    ensures Deserialize(CreditImage(amount)) == Ok(Credit(amount))
    ensures amount > 0 ==> Deserialize(CreditImage(0 - (amount as int))) == Ok(Uncredit(amount))
    ensures Deserialize([8]) == Ok(SetStakingAuthority) && Deserialize([9]) == Ok(SetOwner)
    ensures Deserialize([15]) == Ok(PayCreditors)
  {
    hide U64At;
    AmountRead(6, amount);
    AmountRead(7, amount);
    AmountRead(10, amount);
    AmountRead(11, amount);
    InitializeRead(fee);
  }

  lemma {:induction false} InitializeRead(fee: Fee)
    ensures var b := InitializeImage(fee);
            |b| == 17 && b[0] == 0 && U64At(b, 1) == fee.denominator && U64At(b, 9) == fee.numerator
  {
    var b := InitializeImage(fee);
    assert b[1..9] == ToBytes(fee.denominator, 8) && b[9..17] == ToBytes(fee.numerator, 8);
    U64RoundTrip(fee.denominator);
    U64RoundTrip(fee.numerator);
  }

  /** Nothing else decodes: a tag below 16, but not 1, and the bytes it takes. */
  lemma {:induction false} UnknownBytesRefused(b: seq<byte>)
    ensures Deserialize(b).Ok? ==> b != [] && b[0] < 16 && b[0] != 1
    ensures b != [] && b[0] in {6, 7, 10, 11} ==> (Deserialize(b).Ok? <==> |b| >= 9)
    ensures b != [] && b[0] == 0 ==> (Deserialize(b).Ok? <==> |b| >= 17)
  {
  }

  // ---- what the plan meant, and the keys it pushes

  /** The entry as planned: an absent split index stands for the source. */
  function UnstakeMeant(u: PlannedUnstake): UnstakeInstruction {
    UnstakeInstruction(u.validator, u.sourceIndex, if u.splitIndex.Some? then u.splitIndex.value else u.sourceIndex,
                       if u.amount.Some? then u.amount.value else 0)
  }

  /** The encoding keeps the plan's meaning unless it asks to split into account 0
      from another account. */
  lemma {:induction false} UnstakeMeaningKept(u: PlannedUnstake)
    ensures UnstakeEncoded(u) == UnstakeMeant(u) <==> !(u.splitIndex == Some(0) && u.sourceIndex != 0)
  {
  }

  /** The program uses up exactly the keys pushed. */
  predicate Aligned(u: PlannedUnstake) {
    u.splitIndex == Some(u.sourceIndex) ==> u.sourceIndex == 0
  }

  function KeysUsedBy(plan: seq<PlannedUnstake>): nat {
    if plan == [] then 0 else KeysUsed(UnstakeEncoded(plan[0])) + KeysUsedBy(plan[1..])
  }

  /** A batch's keys are used up exactly, one or two an entry, if and only if no entry
      names its own non-zero source as the split index; otherwise keys are left over. */
  lemma {:induction false} UnstakeKeysExact(plan: seq<PlannedUnstake>)
    ensures KeysUsedBy(plan) <= |UnstakeKeys(plan)|
    ensures KeysUsedBy(plan) == |UnstakeKeys(plan)| <==> forall i :: 0 <= i < |plan| ==> Aligned(plan[i])
  {
    if plan != [] {
      UnstakeKeysExact(plan[1..]);
      assert Aligned(plan[0]) <==> KeysUsed(UnstakeEncoded(plan[0])) == |UnstakeKeysOf(plan[0])|;
      assert forall i :: 0 < i < |plan| ==> plan[i] == plan[1..][i - 1];
    }
  }

  /** With aligned entries the handler, whatever the accounts hold, finds at each entry
      the accounts pushed for it. */
  lemma {:induction false} UnstakeKeysMatch(w: Work, plan: seq<PlannedUnstake>, rent: Rent)
    requires forall i :: 0 <= i < |plan| ==> Aligned(plan[i])
    ensures UnstakeLoop(w, UnstakesEncoded(plan), UnstakeKeys(plan), rent).Err? ==>
              UnstakeLoop(w, UnstakesEncoded(plan), UnstakeKeys(plan), rent).error
                !in {NotEnoughAccountKeys, InvalidStakeAccountAddress}
    decreases |plan|
  {
    if plan != [] {
      var e, keys := UnstakeEncoded(plan[0]), UnstakeKeys(plan);
      assert UnstakesEncoded(plan)[1..] == UnstakesEncoded(plan[1..]);
      assert KeysUsed(e) == |UnstakeKeysOf(plan[0])|;
      assert keys[KeysUsed(e)..] == UnstakeKeys(plan[1..]);
      if UnstakeOne(w, e, keys, rent).Ok? {
        UnstakeKeysMatch(UnstakeOne(w, e, keys, rent).value, plan[1..], rent);
      }
    }
  }
}
