/** DelegateReserve, MergeStakes and Unstake: batches that move lamports between
    the reserve and the numbered stake accounts. */
module Staking {
  import opened Machine
  import opened Data
  import opened Ledger
  import opened Invariants

  /** A batch works on a copy of the validator list, which is written back only
      when some stake count changed; account balances change as it goes. */
  datatype Work = Work(
    list: seq<ValidatorStakeInfo>, accounts: Accounts, reserve: u64, outside: u64, total: u64, changed: bool)

  function Start(s: State): Work {
    Work(s.validators, s.bank.accounts, s.bank.reserve, s.bank.outside, 0, false)
  }

  function Commit(s: State, w: Work): State {
    s.(validators := if w.changed then w.list else s.validators,
       bank := s.bank.(accounts := w.accounts, reserve := w.reserve, outside := w.outside))
  }

  function FindVote(list: seq<ValidatorStakeInfo>, a: Address): Option<nat> {
    if a.Wallet? then Find(list, a.key) else None
  }

  // ---- DelegateReserve

  function DelegateOne(w: Work, e: DelegateReserveInstruction, vote: Address, stake: Address,
                       available: u64, rent: Rent): Result<Work, Error>
  {
    match FindVote(w.list, vote)
    case None => Err(ValidatorNotFound)
    case Some(k) =>
      var v := w.list[k];
      var a := StakeKey(v.validator, e.stakeIndex);
      if WrapAdd64(w.total, e.amount) > available then Err(InsufficientFunds)
      else if e.stakeIndex > v.stakeCount then Err(InvalidStakeIndex)
      else if stake != Pda(a) then Err(InvalidStakeAccountAddress)
      else if At(w.accounts, a).System? && e.amount < MIN_STAKE_ACCOUNT_BALANCE then Err(InsufficientFunds)
      else if At(w.accounts, a).System? && At(w.accounts, a).lamports > 0 then Err(AccountInUse)
      else if e.amount > w.reserve || At(w.accounts, a).lamports + e.amount >= U64_LIMIT then Err(TransferFailed)
      else if At(w.accounts, a).Stake? && !Delegable(At(w.accounts, a).state) then Err(StakeProgramFailure)
      else Ok(Delegate(w, k, e, rent))
  }

  /** The stake program delegates it. */
  predicate Delegable(state: StakeState) {
    state.Initialized? || (state.Delegated? && state.redelegable)
  }

  /** The account is created, or topped up, and delegated again as a whole. */
  function Delegate(w: Work, k: nat, e: DelegateReserveInstruction, rent: Rent): Work
    requires k < |w.list| && e.amount <= w.reserve
    requires At(w.accounts, StakeKey(w.list[k].validator, e.stakeIndex)).lamports + e.amount < U64_LIMIT
  {
    var v := w.list[k];
    var a := StakeKey(v.validator, e.stakeIndex);
    var lamports := At(w.accounts, a).lamports + e.amount;
    var grows := e.stakeIndex >= v.stakeCount;
    w.(list := w.list[k := v.(balance := WrapAdd64(v.balance, e.amount),
                              stakeCount := if grows then WrapAdd32(e.stakeIndex, 1) else v.stakeCount)],
       accounts := w.accounts[a := Stake(lamports, FreshStake(lamports, rent))],
       reserve := w.reserve - e.amount,
       total := WrapAdd64(w.total, e.amount),
       changed := w.changed || grows)
  }

  /** All lamports but the rent, delegated just now. */
  function FreshStake(lamports: u64, rent: Rent): StakeState {
    Delegated(rent.stake, SaturatingSub64(lamports, rent.stake), 0, true, true)
  }

  function DelegateLoop(w: Work, batch: seq<DelegateReserveInstruction>, keys: seq<Address>,
                        available: u64, rent: Rent): Result<Work, Error>
    decreases |batch|
  {
    if batch == [] then Ok(w)
    else if |keys| < 2 then Err(NotEnoughAccountKeys)
    else
      var w1 :- DelegateOne(w, batch[0], keys[0], keys[1], available, rent);
      DelegateLoop(w1, batch[1..], keys[2..], available, rent)
  }

  function DelegateReserve(s: State, batch: seq<DelegateReserveInstruction>, keys: seq<Address>, rent: Rent)
    : Result<State, Error>
  {
    var w :- DelegateLoop(Start(s), batch, keys, Spendable(s, rent), rent);
    Ok(Commit(s, w))
  }

  // ---- MergeStakes

  function MergeOne(w: Work, e: MergeStakesInstruction, main: Address, additional: Address): Result<Work, Error> {
    match Find(w.list, e.validator)
    case None => Err(ValidatorNotFound)
    case Some(k) =>
      var v := w.list[k];
      var a, b := StakeKey(v.validator, e.mainIndex), StakeKey(v.validator, e.additionalIndex);
      if e.mainIndex >= v.stakeCount || e.additionalIndex >= v.stakeCount || e.mainIndex >= e.additionalIndex
        then Err(InvalidStakeIndex)
      else if main != Pda(a) || additional != Pda(b) then Err(InvalidStakeAccountAddress)
      else if At(w.accounts, a).System? || At(w.accounts, b).System? then Err(InvalidAccountData)
      else if CreditsDiffer(At(w.accounts, a).state, At(w.accounts, b).state) then Ok(w)
      else
        var state := Merged(At(w.accounts, a).state, At(w.accounts, b).state);
        if state.None? || At(w.accounts, a).lamports + At(w.accounts, b).lamports >= U64_LIMIT
          then Err(StakeProgramFailure)
        else Ok(Merge(w, k, e.mainIndex, e.additionalIndex, state.value))
  }

  predicate CreditsDiffer(a: StakeState, b: StakeState) {
    a.Delegated? && b.Delegated? && a.creditsObserved != b.creditsObserved
  }

  /** The state the stake program leaves in the main account, if it merges at all. */
  function Merged(a: StakeState, b: StakeState): Option<StakeState> {
    match (a, b)
    case (Delegated(_, x, _, _, _), Delegated(_, y, _, _, _)) =>
      if a.joinable && b.joinable && x + y < U64_LIMIT then Some(a.(stake := x + y)) else None
    case (Delegated(_, _, _, _, joinable), Initialized(_)) =>
      if joinable then Some(a) else None
    case (Initialized(_), Initialized(_)) => Some(a)
    case (_, _) => None
  }

  /** The additional account is drained into the main one. */
  function Merge(w: Work, k: nat, i: u32, j: u32, state: StakeState): Work
    requires k < |w.list| && i < j < w.list[k].stakeCount
    requires At(w.accounts, StakeKey(w.list[k].validator, i)).lamports
           + At(w.accounts, StakeKey(w.list[k].validator, j)).lamports < U64_LIMIT
  {
    var v := w.list[k];
    var a, b := StakeKey(v.validator, i), StakeKey(v.validator, j);
    var accounts :=
      w.accounts[a := Stake(At(w.accounts, a).lamports + At(w.accounts, b).lamports, state)][b := System(0)];
    if j + 1 == v.stakeCount then
      w.(accounts := accounts, list := w.list[k := v.(stakeCount := v.stakeCount - 1)], changed := true)
    else
      w.(accounts := accounts)
  }

  function MergeLoop(w: Work, batch: seq<MergeStakesInstruction>, keys: seq<Address>): Result<Work, Error>
    decreases |batch|
  {
    if batch == [] then Ok(w)
    else if |keys| < 2 then Err(NotEnoughAccountKeys)
    else
      var w1 :- MergeOne(w, batch[0], keys[0], keys[1]);
      MergeLoop(w1, batch[1..], keys[2..])
  }

  function MergeStakes(s: State, batch: seq<MergeStakesInstruction>, keys: seq<Address>): Result<State, Error> {
    var w :- MergeLoop(Start(s), batch, keys);
    Ok(Commit(s, w))
  }

  // ---- Unstake

  /** Accounts one entry uses up: only a split names a second one. */
  function KeysUsed(e: UnstakeInstruction): nat {
    if e.splitIndex == e.sourceIndex then 1 else 2
  }

  function UnstakeOne(w: Work, e: UnstakeInstruction, keys: seq<Address>, rent: Rent): (r: Result<Work, Error>)
    ensures r.Ok? ==> KeysUsed(e) <= |keys|
  {
    match Find(w.list, e.validator)
    case None => Err(ValidatorNotFound)
    case Some(k) =>
      var v := w.list[k];
      var a, b := StakeKey(v.validator, e.sourceIndex), StakeKey(v.validator, e.splitIndex);
      if e.sourceIndex >= v.stakeCount || e.splitIndex > v.stakeCount then Err(InvalidStakeIndex)
      else if keys == [] then Err(NotEnoughAccountKeys)
      else if keys[0] != Pda(a) then Err(InvalidStakeAccountAddress)
      else if e.splitIndex == e.sourceIndex then
        if IsDelegated(At(w.accounts, a)) then Ok(w) else Err(StakeProgramFailure)
      else if |keys| == 1 then Err(NotEnoughAccountKeys)
      else if keys[1] != Pda(b) then Err(InvalidStakeAccountAddress)
      else if At(w.accounts, b) != System(0) then Err(AccountInUse)
      else if rent.stake > w.outside then Err(TransferFailed)
      else if !IsDelegated(At(w.accounts, a)) || e.amount > At(w.accounts, a).lamports
              || rent.stake + e.amount >= U64_LIMIT then Err(StakeProgramFailure)
      else Ok(Split(w, k, e, rent))
  }

  predicate IsDelegated(acc: Account) {
    acc.Stake? && acc.state.Delegated?
  }

  /** A new account, with its rent paid by the owner, takes `amount` from the source. */
  function Split(w: Work, k: nat, e: UnstakeInstruction, rent: Rent): Work
    requires k < |w.list| && rent.stake <= w.outside && rent.stake + e.amount < U64_LIMIT
    requires var acc := At(w.accounts, StakeKey(w.list[k].validator, e.sourceIndex));
             acc.Stake? && acc.state.Delegated? && e.amount <= acc.lamports
  {
    var v := w.list[k];
    var a, b := StakeKey(v.validator, e.sourceIndex), StakeKey(v.validator, e.splitIndex);
    var source := At(w.accounts, a);
    var grows := e.splitIndex == v.stakeCount;
    w.(list := if grows then w.list[k := v.(stakeCount := WrapAdd32(v.stakeCount, 1))] else w.list,
       accounts := w.accounts
         [a := Holding(source.lamports - e.amount,
                       source.state.(stake := SaturatingSub64(source.state.stake, e.amount)))]
         [b := Holding(rent.stake + e.amount, source.state.(rentReserve := rent.stake, stake := e.amount))],
       outside := w.outside - rent.stake,
       changed := w.changed || grows)
  }

  function UnstakeLoop(w: Work, batch: seq<UnstakeInstruction>, keys: seq<Address>, rent: Rent): Result<Work, Error>
    decreases |batch|
  {
    if batch == [] then Ok(w)
    else
      var w1 :- UnstakeOne(w, batch[0], keys, rent);
      UnstakeLoop(w1, batch[1..], keys[KeysUsed(batch[0])..], rent)
  }

  function Unstake(s: State, batch: seq<UnstakeInstruction>, keys: seq<Address>, rent: Rent): Result<State, Error> {
    var w :- UnstakeLoop(Start(s), batch, keys, rent);
    Ok(Commit(s, w))
  }
}

/** What every step of every batch keeps. */
module StakingProofs {
  import opened Machine
  import opened Data
  import opened Ledger
  import opened Invariants
  import opened Staking
  import Contents = StakingContents

  ghost predicate SameValidators(a: seq<ValidatorStakeInfo>, b: seq<ValidatorStakeInfo>) {
    && |a| == |b|
    && (forall k :: 0 <= k < |a| ==>
          a[k].validator == b[k].validator && a[k].lastUpdateEpoch == b[k].lastUpdateEpoch)
  }

  ghost predicate SameCounts(a: seq<ValidatorStakeInfo>, b: seq<ValidatorStakeInfo>) {
    |a| == |b| && (forall k :: 0 <= k < |a| ==> a[k].stakeCount == b[k].stakeCount)
  }

  /** The stored balances are covered by the accounts the working list counts. */
  ghost predicate StillCovered(old': seq<ValidatorStakeInfo>, list: seq<ValidatorStakeInfo>, accounts: Accounts)
    requires |old'| == |list|
  {
    forall k :: 0 <= k < |list| ==> old'[k].balance <= OfRecord(list[k], accounts)
  }

  ghost predicate WorkOk(s: State, w: Work, available: u64) {
    && Book(w.list, w.accounts)
    && SameValidators(s.validators, w.list)
    && Covered(w.list, w.accounts)
    && StillCovered(s.validators, w.list, w.accounts)
    && w.reserve + Listed(w.list, w.accounts) + w.outside == Capital(s)
    && w.reserve + Listed(w.list, w.accounts) >= Assets(s)
    && w.reserve + w.total == s.bank.reserve
    && w.total <= available <= s.bank.reserve
    && (!w.changed ==> SameCounts(s.validators, w.list))
  }

  lemma {:induction false} StartOk(s: State, available: u64)
    requires StakesOk(s) && available <= s.bank.reserve
    ensures WorkOk(s, Start(s), available)
  {
  }

  lemma {:induction false} SameCountsSameListed(a: seq<ValidatorStakeInfo>, b: seq<ValidatorStakeInfo>,
                                                accounts: Accounts, n: nat)
    requires SameValidators(a, b) && SameCounts(a, b) && n <= |a|
    ensures ListedTo(a, accounts, n) == ListedTo(b, accounts, n)
  {
    if n > 0 {
      SameCountsSameListed(a, b, accounts, n - 1);
    }
  }

  lemma {:induction false} SameCountsSameCountOf(a: seq<ValidatorStakeInfo>, b: seq<ValidatorStakeInfo>, v: Pubkey)
    requires SameValidators(a, b) && SameCounts(a, b)
    ensures CountOf(a, v) == CountOf(b, v)
  {
    if Find(a, v).Some? {
      assert b[Find(a, v).value].validator == v;
    }
    if Find(b, v).Some? {
      assert a[Find(b, v).value].validator == v;
    }
  }

  /** Not writing the list back is harmless: with unchanged counts the stored list
      counts the same accounts, and its balances are only smaller. */
  lemma {:induction false} CommitKeeps(s: State, w: Work, available: u64)
    requires StakesOk(s) && WorkOk(s, w, available)
    ensures StakesOk(Commit(s, w))
    ensures Inv(s) ==> Inv(Commit(s, w))
    ensures Capital(Commit(s, w)) == Capital(s)
    ensures Assets(Commit(s, w)) >= Assets(s)
    ensures Commit(s, w).bank.reserve >= s.bank.reserve - available
  {
    var s' := Commit(s, w);
    if !w.changed {
      SameCountsSameListed(s.validators, w.list, w.accounts, |w.list|);
      forall a | a in w.accounts && w.accounts[a].Stake?
        ensures a.index < CountOf(s.validators, a.validator) && w.accounts[a].lamports > 0
      {
        SameCountsSameCountOf(s.validators, w.list, a.validator);
      }
      assert Covered(s.validators, w.accounts);
    }
    assert Listed(s'.validators, s'.bank.accounts) == Listed(w.list, w.accounts);
  }

  // ---- one entry

  ghost predicate DelegateReady(w: Work, k: nat, e: DelegateReserveInstruction) {
    && k < |w.list| && e.amount <= w.reserve
    && At(w.accounts, StakeKey(w.list[k].validator, e.stakeIndex)).lamports + e.amount < U64_LIMIT
    && w.list[k].balance + e.amount < U64_LIMIT
  }

  /** A delegation adds its amount to one validator's accounts and cached balance. */
  ghost predicate Funded(w: Work, w': Work, k: nat, amount: nat)
    requires k < |w.list|
  {
    && |w'.list| == |w.list|
    && Book(w'.list, w'.accounts)
    && (forall j :: 0 <= j < |w.list| ==>
          && w'.list[j].validator == w.list[j].validator
          && w'.list[j].lastUpdateEpoch == w.list[j].lastUpdateEpoch
          && w'.list[j].balance == w.list[j].balance + (if j == k then amount else 0)
          && OfRecord(w'.list[j], w'.accounts) == OfRecord(w.list[j], w.accounts) + (if j == k then amount else 0))
    && Listed(w'.list, w'.accounts) == Listed(w.list, w.accounts) + amount
  }

  lemma {:induction false} DelegateWithin(w: Work, k: nat, e: DelegateReserveInstruction, rent: Rent)
    requires Book(w.list, w.accounts) && DelegateReady(w, k, e) && e.stakeIndex < w.list[k].stakeCount
    requires At(w.accounts, StakeKey(w.list[k].validator, e.stakeIndex)).lamports + e.amount > 0
    ensures Funded(w, Delegate(w, k, e, rent), k, e.amount)
    ensures SameCounts(w.list, Delegate(w, k, e, rent).list)
  {
    var w' := Delegate(w, k, e, rent);
    TouchAccount(w.list, w.accounts, k, e.stakeIndex, At(w'.accounts, StakeKey(w.list[k].validator, e.stakeIndex)));
    ReplaceBalance(w.list, w'.accounts, k, w'.list[k]);
  }

  lemma {:induction false} DelegateGrows(w: Work, k: nat, e: DelegateReserveInstruction, rent: Rent)
    requires Book(w.list, w.accounts) && DelegateReady(w, k, e)
    requires e.stakeIndex == w.list[k].stakeCount && e.stakeIndex + 1 < U32_LIMIT
    requires At(w.accounts, StakeKey(w.list[k].validator, e.stakeIndex)).lamports == 0 < e.amount
    ensures Funded(w, Delegate(w, k, e, rent), k, e.amount)
  {
    var w' := Delegate(w, k, e, rent);
    GrowCount(w.list, w.accounts, k, w'.list[k], At(w'.accounts, StakeKey(w.list[k].validator, e.stakeIndex)));
  }

  lemma {:induction false} FundedKeeps(s: State, w: Work, w': Work, k: nat, amount: u64, available: u64)
    requires WorkOk(s, w, available) && k < |w.list| && Funded(w, w', k, amount)
    requires w'.reserve + amount == w.reserve && w'.outside == w.outside
    requires w'.total == w.total + amount <= available
    requires !w'.changed ==> !w.changed && SameCounts(w.list, w'.list)
    ensures WorkOk(s, w', available)
  {
  }

  lemma {:induction false} DelegateOneKeeps(s: State, w: Work, e: DelegateReserveInstruction, vote: Address,
                                            stake: Address, available: u64, rent: Rent)
    requires Capital(s) < U64_LIMIT && WorkOk(s, w, available)
    requires e.stakeIndex + 1 < U32_LIMIT
    requires DelegateOne(w, e, vote, stake, available, rent).Ok?
    ensures WorkOk(s, DelegateOne(w, e, vote, stake, available, rent).value, available)
  {
    var k := FindVote(w.list, vote).value;
    DelegateOneReady(s, w, e, k, available);
    if e.stakeIndex < w.list[k].stakeCount {
      DelegateWithin(w, k, e, rent);
    } else {
      DelegateGrows(w, k, e, rent);
    }
    FundedKeeps(s, w, Delegate(w, k, e, rent), k, e.amount, available);
  }

  lemma {:induction false} DelegateOneReady(s: State, w: Work, e: DelegateReserveInstruction, k: nat, available: u64)
    requires Capital(s) < U64_LIMIT && WorkOk(s, w, available) && k < |w.list| && e.amount <= w.reserve
    requires e.stakeIndex <= w.list[k].stakeCount
    requires var acc := At(w.accounts, StakeKey(w.list[k].validator, e.stakeIndex));
             && acc.lamports + e.amount < U64_LIMIT
             && (acc.System? ==> acc.lamports == 0 < e.amount)
    ensures DelegateReady(w, k, e)
    ensures var acc := At(w.accounts, StakeKey(w.list[k].validator, e.stakeIndex));
            && acc.lamports + e.amount > 0
            && (e.stakeIndex == w.list[k].stakeCount ==> acc == System(0))
  {
    RecordWithinListed(w.list, w.accounts, |w.list|, k);
    CountOfListed(w.list, k);
  }

  lemma {:induction false} ReplaceBalance(list: seq<ValidatorStakeInfo>, accounts: Accounts, k: nat,
                                          r: ValidatorStakeInfo)
    requires Book(list, accounts) && k < |list|
    requires r.validator == list[k].validator && r.stakeCount == list[k].stakeCount
    ensures Book(list[k := r], accounts)
    ensures OfRecord(r, accounts) == OfRecord(list[k], accounts)
    ensures Listed(list[k := r], accounts) == Listed(list, accounts)
  {
    ShrinkCount(list, accounts, k, r);
  }

  /** Lamports moved among counted accounts, or into them from outside, with no balance
      changed and counts changed only on record. */
  ghost predicate Reshaped(w: Work, w': Work) {
    && Book(w'.list, w'.accounts) && |w'.list| == |w.list|
    && (forall j :: 0 <= j < |w.list| ==>
          && w'.list[j].(stakeCount := w.list[j].stakeCount) == w.list[j]
          && OfRecord(w'.list[j], w'.accounts) >= OfRecord(w.list[j], w.accounts))
    && Listed(w'.list, w'.accounts) + w'.outside == Listed(w.list, w.accounts) + w.outside
    && w'.outside <= w.outside && w'.reserve == w.reserve && w'.total == w.total
    && (!w'.changed ==> !w.changed && w'.list == w.list)
  }

  lemma {:induction false} ReshapedKeeps(s: State, w: Work, w': Work, available: u64)
    requires WorkOk(s, w, available) && Reshaped(w, w')
    ensures WorkOk(s, w', available)
  {
    hide Lamports, ListedTo, Find, NoStranded;
  }

  /** Merging moves lamports between two accounts of one validator and stops
      counting the drained one when it is the last. */
  lemma {:induction false} MergeMoves(w: Work, k: nat, i: u32, j: u32, state: StakeState)
    requires Book(w.list, w.accounts) && k < |w.list| && i < j < w.list[k].stakeCount
    requires At(w.accounts, StakeKey(w.list[k].validator, i)).Stake?
    requires At(w.accounts, StakeKey(w.list[k].validator, i)).lamports
           + At(w.accounts, StakeKey(w.list[k].validator, j)).lamports < U64_LIMIT
    ensures Reshaped(w, Merge(w, k, i, j, state))
    ensures Merge(w, k, i, j, state).outside == w.outside
  {
    var w' := Merge(w, k, i, j, state);
    var a := StakeKey(w.list[k].validator, i);
    TouchAccount(w.list, w.accounts, k, i, At(w'.accounts, a));
    TouchAccount(w.list, w.accounts[a := At(w'.accounts, a)], k, j, System(0));
    if j + 1 == w.list[k].stakeCount {
      ShrinkCount(w.list, w'.accounts, k, w'.list[k]);
    }
  }

  lemma {:induction false} MergeOneKeeps(s: State, w: Work, e: MergeStakesInstruction, main: Address,
                                         additional: Address, available: u64)
    requires WorkOk(s, w, available)
    requires MergeOne(w, e, main, additional).Ok?
    ensures WorkOk(s, MergeOne(w, e, main, additional).value, available)
  {
    var k := Find(w.list, e.validator).value;
    var a, b := StakeKey(w.list[k].validator, e.mainIndex), StakeKey(w.list[k].validator, e.additionalIndex);
    if !CreditsDiffer(At(w.accounts, a).state, At(w.accounts, b).state) {
      var state := Merged(At(w.accounts, a).state, At(w.accounts, b).state).value;
      MergeMoves(w, k, e.mainIndex, e.additionalIndex, state);
      ReshapedKeeps(s, w, Merge(w, k, e.mainIndex, e.additionalIndex, state), available);
    }
  }

  ghost predicate SplitReady(w: Work, k: nat, e: UnstakeInstruction, rent: Rent) {
    && k < |w.list| && rent.stake <= w.outside && rent.stake + e.amount < U64_LIMIT
    && e.sourceIndex < w.list[k].stakeCount && e.sourceIndex != e.splitIndex
    && At(w.accounts, StakeKey(w.list[k].validator, e.splitIndex)) == System(0)
    && var acc := At(w.accounts, StakeKey(w.list[k].validator, e.sourceIndex));
       acc.Stake? && acc.state.Delegated? && e.amount <= acc.lamports
  }

  /** Splitting into a counted index adds the rent, and nothing else, to one validator. */
  lemma {:induction false} SplitWithin(w: Work, k: nat, e: UnstakeInstruction, rent: Rent)
    requires Book(w.list, w.accounts) && SplitReady(w, k, e, rent) && e.splitIndex < w.list[k].stakeCount
    ensures Reshaped(w, Split(w, k, e, rent))
  {
    var w' := Split(w, k, e, rent);
    var a, b := StakeKey(w.list[k].validator, e.sourceIndex), StakeKey(w.list[k].validator, e.splitIndex);
    TouchAccount(w.list, w.accounts, k, e.sourceIndex, At(w'.accounts, a));
    TouchAccount(w.list, w.accounts[a := At(w'.accounts, a)], k, e.splitIndex, At(w'.accounts, b));
  }

  /** So does splitting into the first uncounted index, which is then counted. */
  lemma {:induction false} SplitGrows(w: Work, k: nat, e: UnstakeInstruction, rent: Rent)
    requires Book(w.list, w.accounts) && SplitReady(w, k, e, rent)
    requires e.splitIndex == w.list[k].stakeCount && e.splitIndex + 1 < U32_LIMIT
    ensures Reshaped(w, Split(w, k, e, rent))
  {
    var w' := Split(w, k, e, rent);
    var a, b := StakeKey(w.list[k].validator, e.sourceIndex), StakeKey(w.list[k].validator, e.splitIndex);
    TouchAccount(w.list, w.accounts, k, e.sourceIndex, At(w'.accounts, a));
    GrowCount(w.list, w.accounts[a := At(w'.accounts, a)], k, w'.list[k], At(w'.accounts, b));
  }

  lemma {:induction false} UnstakeOneKeeps(s: State, w: Work, e: UnstakeInstruction, keys: seq<Address>, rent: Rent,
                                           available: u64)
    requires WorkOk(s, w, available)
    requires e.splitIndex + 1 < U32_LIMIT
    requires UnstakeOne(w, e, keys, rent).Ok?
    ensures WorkOk(s, UnstakeOne(w, e, keys, rent).value, available)
  {
    if e.splitIndex != e.sourceIndex {
      var k := Find(w.list, e.validator).value;
      assert SplitReady(w, k, e, rent);
      if e.splitIndex < w.list[k].stakeCount {
        SplitWithin(w, k, e, rent);
      } else {
        SplitGrows(w, k, e, rent);
      }
      ReshapedKeeps(s, w, Split(w, k, e, rent), available);
    }
  }

  // ---- whole batches

  /** No entry makes a stake count wrap. */
  predicate DelegateFits(batch: seq<DelegateReserveInstruction>) {
    forall i :: 0 <= i < |batch| ==> batch[i].stakeIndex + 1 < U32_LIMIT
  }

  predicate UnstakeFits(batch: seq<UnstakeInstruction>) {
    forall i :: 0 <= i < |batch| ==> batch[i].splitIndex + 1 < U32_LIMIT
  }

  lemma {:induction false} DelegateLoopKeeps(s: State, w: Work, batch: seq<DelegateReserveInstruction>,
                                             keys: seq<Address>, available: u64, rent: Rent)
    requires Capital(s) < U64_LIMIT && WorkOk(s, w, available) && DelegateFits(batch)
    requires DelegateLoop(w, batch, keys, available, rent).Ok?
    ensures WorkOk(s, DelegateLoop(w, batch, keys, available, rent).value, available)
    decreases |batch|
  {
    if batch != [] {
      DelegateOneKeeps(s, w, batch[0], keys[0], keys[1], available, rent);
      var w1 := DelegateOne(w, batch[0], keys[0], keys[1], available, rent).value;
      DelegateLoopKeeps(s, w1, batch[1..], keys[2..], available, rent);
    }
  }

  lemma {:induction false} MergeLoopKeeps(s: State, w: Work, batch: seq<MergeStakesInstruction>,
                                          keys: seq<Address>, available: u64)
    requires WorkOk(s, w, available)
    requires MergeLoop(w, batch, keys).Ok?
    ensures WorkOk(s, MergeLoop(w, batch, keys).value, available)
    decreases |batch|
  {
    if batch != [] {
      MergeOneKeeps(s, w, batch[0], keys[0], keys[1], available);
      MergeLoopKeeps(s, MergeOne(w, batch[0], keys[0], keys[1]).value, batch[1..], keys[2..], available);
    }
  }

  lemma {:induction false} UnstakeLoopKeeps(s: State, w: Work, batch: seq<UnstakeInstruction>,
                                            keys: seq<Address>, rent: Rent, available: u64)
    requires WorkOk(s, w, available) && UnstakeFits(batch)
    requires UnstakeLoop(w, batch, keys, rent).Ok?
    ensures WorkOk(s, UnstakeLoop(w, batch, keys, rent).value, available)
    decreases |batch|
  {
    if batch != [] {
      UnstakeOneKeeps(s, w, batch[0], keys, rent, available);
      var w1 := UnstakeOne(w, batch[0], keys, rent).value;
      UnstakeLoopKeeps(s, w1, batch[1..], keys[KeysUsed(batch[0])..], rent, available);
    }
  }

  // ---- in any state a batch leaves each record's validator and epoch where they are

  lemma {:induction false} DelegateLoopNames(w: Work, batch: seq<DelegateReserveInstruction>, keys: seq<Address>,
                                             available: u64, rent: Rent)
    requires DelegateLoop(w, batch, keys, available, rent).Ok?
    ensures SameValidators(w.list, DelegateLoop(w, batch, keys, available, rent).value.list)
    decreases |batch|
  {
    if batch != [] {
      var w1 := DelegateOne(w, batch[0], keys[0], keys[1], available, rent).value;
      DelegateLoopNames(w1, batch[1..], keys[2..], available, rent);
    }
  }

  lemma {:induction false} MergeLoopNames(w: Work, batch: seq<MergeStakesInstruction>, keys: seq<Address>)
    requires MergeLoop(w, batch, keys).Ok?
    ensures SameValidators(w.list, MergeLoop(w, batch, keys).value.list)
    decreases |batch|
  {
    if batch != [] {
      MergeLoopNames(MergeOne(w, batch[0], keys[0], keys[1]).value, batch[1..], keys[2..]);
    }
  }

  lemma {:induction false} UnstakeLoopNames(w: Work, batch: seq<UnstakeInstruction>, keys: seq<Address>, rent: Rent)
    requires UnstakeLoop(w, batch, keys, rent).Ok?
    ensures SameValidators(w.list, UnstakeLoop(w, batch, keys, rent).value.list)
    decreases |batch|
  {
    if batch != [] {
      UnstakeLoopNames(UnstakeOne(w, batch[0], keys, rent).value, batch[1..], keys[KeysUsed(batch[0])..], rent);
    }
  }

  // ---- what happens at the one index where a stake count wraps to zero

  /** A stake account out of its validator's reach. */
  ghost predicate Lost(w: Work, a: StakeKey) {
    Distinct(w.list) && a in w.accounts && w.accounts[a].Stake? && CountOf(w.list, a.validator) <= a.index
  }

  lemma {:induction false} DelegateOneEffect(w: Work, e: DelegateReserveInstruction, vote: Address, stake: Address,
                                             available: u64, rent: Rent, a: StakeKey)
    requires Distinct(w.list) && DelegateOne(w, e, vote, stake, available, rent).Ok?
    ensures var w' := DelegateOne(w, e, vote, stake, available, rent).value;
            && Distinct(w'.list)
            && (w.changed ==> w'.changed)
            && CountOf(w'.list, a.validator) <= CountOf(w.list, a.validator) + 1
            && (a in w.accounts && w.accounts[a].Stake? ==> a in w'.accounts && w'.accounts[a].Stake?)
  {
    var w' := DelegateOne(w, e, vote, stake, available, rent).value;
    var k := FindVote(w.list, vote).value;
    CountOfReplaced(w.list, k, w'.list[k], a.validator);
    CountOfListed(w.list, k);
  }

  lemma {:induction false} DelegateLoopLost(w: Work, batch: seq<DelegateReserveInstruction>, keys: seq<Address>,
                                            available: u64, rent: Rent, a: StakeKey)
    requires Lost(w, a) && w.changed && CountOf(w.list, a.validator) + |batch| <= a.index
    requires DelegateLoop(w, batch, keys, available, rent).Ok?
    ensures Lost(DelegateLoop(w, batch, keys, available, rent).value, a)
    ensures DelegateLoop(w, batch, keys, available, rent).value.changed
    decreases |batch|
  {
    if batch != [] {
      DelegateOneEffect(w, batch[0], keys[0], keys[1], available, rent, a);
      var w1 := DelegateOne(w, batch[0], keys[0], keys[1], available, rent).value;
      DelegateLoopLost(w1, batch[1..], keys[2..], available, rent, a);
    }
  }

  lemma {:induction false} DelegateLoopAtLimit(w: Work, batch: seq<DelegateReserveInstruction>, keys: seq<Address>,
                                               available: u64, rent: Rent)
    returns (a: StakeKey)
    requires Distinct(w.list) && !DelegateFits(batch) && |batch| < U32_LIMIT
    requires DelegateLoop(w, batch, keys, available, rent).Ok?
    ensures Lost(DelegateLoop(w, batch, keys, available, rent).value, a)
    ensures DelegateLoop(w, batch, keys, available, rent).value.changed
    decreases |batch|
  {
    var w1 := DelegateOne(w, batch[0], keys[0], keys[1], available, rent).value;
    var k := FindVote(w.list, keys[0]).value;
    a := StakeKey(w.list[k].validator, batch[0].stakeIndex);
    DelegateOneEffect(w, batch[0], keys[0], keys[1], available, rent, a);
    if batch[0].stakeIndex + 1 == U32_LIMIT {
      CountOfReplaced(w.list, k, w1.list[k], a.validator);
      DelegateLoopLost(w1, batch[1..], keys[2..], available, rent, a);
    } else {
      assert !DelegateFits(batch[1..]) by {
        var i :| 0 <= i < |batch| && batch[i].stakeIndex + 1 >= U32_LIMIT;
        assert batch[1..][i - 1] == batch[i];
      }
      a := DelegateLoopAtLimit(w1, batch[1..], keys[2..], available, rent);
    }
  }

  /** Once its count has wrapped to zero no later entry of the batch can name `a`'s validator. */
  lemma {:induction false} UnstakeOneLost(w: Work, e: UnstakeInstruction, keys: seq<Address>, rent: Rent, a: StakeKey)
    requires Lost(w, a) && w.changed && CountOf(w.list, a.validator) == 0
    requires UnstakeOne(w, e, keys, rent).Ok?
    ensures var w' := UnstakeOne(w, e, keys, rent).value;
            Lost(w', a) && w'.changed && CountOf(w'.list, a.validator) == 0
  {
    var w' := UnstakeOne(w, e, keys, rent).value;
    var k := Find(w.list, e.validator).value;
    CountOfListed(w.list, k);
    CountOfReplaced(w.list, k, w'.list[k], a.validator);
    assert w.list[k := w.list[k]] == w.list;
  }

  lemma {:induction false} UnstakeLoopLost(w: Work, batch: seq<UnstakeInstruction>, keys: seq<Address>, rent: Rent,
                                           a: StakeKey)
    requires Lost(w, a) && w.changed && CountOf(w.list, a.validator) == 0
    requires UnstakeLoop(w, batch, keys, rent).Ok?
    ensures Lost(UnstakeLoop(w, batch, keys, rent).value, a)
    ensures UnstakeLoop(w, batch, keys, rent).value.changed
    decreases |batch|
  {
    if batch != [] {
      UnstakeOneLost(w, batch[0], keys, rent, a);
      UnstakeLoopLost(UnstakeOne(w, batch[0], keys, rent).value, batch[1..], keys[KeysUsed(batch[0])..], rent, a);
    }
  }

  lemma {:induction false} UnstakeOneAtLimit(w: Work, e: UnstakeInstruction, keys: seq<Address>, rent: Rent)
    returns (a: StakeKey)
    requires Distinct(w.list) && e.splitIndex + 1 == U32_LIMIT
    requires forall b :: b in w.accounts && w.accounts[b].Stake? ==> w.accounts[b].lamports > 0
    requires UnstakeOne(w, e, keys, rent).Ok?
    ensures var w' := UnstakeOne(w, e, keys, rent).value;
            Lost(w', a) && w'.changed && CountOf(w'.list, a.validator) == 0
  {
    var w' := UnstakeOne(w, e, keys, rent).value;
    var k := Find(w.list, e.validator).value;
    var v := w.list[k].validator;
    CountOfReplaced(w.list, k, w'.list[k], v);
    assert At(w.accounts, StakeKey(v, e.sourceIndex)).lamports > 0;
    a := StakeKey(v, if At(w'.accounts, StakeKey(v, e.splitIndex)).Stake? then e.splitIndex else e.sourceIndex);
  }

  lemma {:induction false} UnstakeLoopAtLimit(w: Work, batch: seq<UnstakeInstruction>, keys: seq<Address>, rent: Rent)
    returns (a: StakeKey)
    requires Distinct(w.list) && !UnstakeFits(batch)
    requires forall b :: b in w.accounts && w.accounts[b].Stake? ==> w.accounts[b].lamports > 0
    requires UnstakeLoop(w, batch, keys, rent).Ok?
    ensures Lost(UnstakeLoop(w, batch, keys, rent).value, a)
    ensures UnstakeLoop(w, batch, keys, rent).value.changed
    decreases |batch|
  {
    var w1 := UnstakeOne(w, batch[0], keys, rent).value;
    var rest := keys[KeysUsed(batch[0])..];
    if batch[0].splitIndex + 1 == U32_LIMIT {
      a := UnstakeOneAtLimit(w, batch[0], keys, rent);
      UnstakeLoopLost(w1, batch[1..], rest, rent, a);
    } else {
      assert !UnstakeFits(batch[1..]) by {
        var i :| 0 <= i < |batch| && batch[i].splitIndex + 1 >= U32_LIMIT;
        assert batch[1..][i - 1] == batch[i];
      }
      var k := Find(w.list, batch[0].validator).value;
      CountOfReplaced(w.list, k, w1.list[k], w.list[k].validator);
      assert w.list[k := w.list[k]] == w.list;
      a := UnstakeLoopAtLimit(w1, batch[1..], rest, rent);
    }
  }

  /** A committed delegation keeps the pool in order, moves lamports without
      losing any, and leaves the reserve its minimum or what it had. */
  lemma {:induction false} DelegateReserveKeeps(s: State, batch: seq<DelegateReserveInstruction>, keys: seq<Address>,
                                                rent: Rent)
    requires StakesOk(s) && DelegateFits(batch) && DelegateReserve(s, batch, keys, rent).Ok?
    ensures var s' := DelegateReserve(s, batch, keys, rent).value;
            && StakesOk(s') && (Inv(s) ==> Inv(s'))
            && Capital(s') == Capital(s)
            && Assets(s') == Assets(s)
            && s'.bank.reserve >= Min(s.bank.reserve, MinReserve(rent))
  {
    StartOk(s, Spendable(s, rent));
    DelegateLoopKeeps(s, Start(s), batch, keys, Spendable(s, rent), rent);
    var w := DelegateLoop(Start(s), batch, keys, Spendable(s, rent), rent).value;
    DelegateLoopOutside(Start(s), batch, keys, Spendable(s, rent), rent);
    CommitKeeps(s, w, Spendable(s, rent));
  }

  lemma {:induction false} DelegateLoopOutside(w: Work, batch: seq<DelegateReserveInstruction>, keys: seq<Address>,
                                               available: u64, rent: Rent)
    requires DelegateLoop(w, batch, keys, available, rent).Ok?
    ensures DelegateLoop(w, batch, keys, available, rent).value.outside == w.outside
    decreases |batch|
  {
    if batch != [] {
      var w1 := DelegateOne(w, batch[0], keys[0], keys[1], available, rent).value;
      DelegateLoopOutside(w1, batch[1..], keys[2..], available, rent);
    }
  }

  lemma {:induction false} DelegateLoopSpends(w: Work, batch: seq<DelegateReserveInstruction>, keys: seq<Address>,
                                              available: u64, rent: Rent)
    requires w.total <= available <= w.reserve + w.total < U64_LIMIT
    requires DelegateLoop(w, batch, keys, available, rent).Ok?
    ensures var w' := DelegateLoop(w, batch, keys, available, rent).value;
            w'.total <= available && w'.reserve + w'.total == w.reserve + w.total
    decreases |batch|
  {
    if batch != [] {
      var w1 := DelegateOne(w, batch[0], keys[0], keys[1], available, rent).value;
      assert w1.reserve + w1.total == w.reserve + w.total;
      DelegateLoopSpends(w1, batch[1..], keys[2..], available, rent);
    }
  }

  /** In any state a committed delegation leaves the reserve its minimum, or what
      it had: when the running total wraps the transfer that follows must fail. */
  lemma {:induction false} DelegateReserveSpends(s: State, batch: seq<DelegateReserveInstruction>, keys: seq<Address>,
                                                 rent: Rent)
    requires DelegateReserve(s, batch, keys, rent).Ok?
    ensures DelegateReserve(s, batch, keys, rent).value.bank.reserve >= Min(s.bank.reserve, MinReserve(rent))
  {
    DelegateLoopSpends(Start(s), batch, keys, Spendable(s, rent), rent);
  }

  lemma {:induction false} MergeLoopReserve(w: Work, batch: seq<MergeStakesInstruction>, keys: seq<Address>)
    requires MergeLoop(w, batch, keys).Ok?
    ensures var w' := MergeLoop(w, batch, keys).value; w'.reserve == w.reserve && w'.outside == w.outside
    decreases |batch|
  {
    if batch != [] {
      MergeLoopReserve(MergeOne(w, batch[0], keys[0], keys[1]).value, batch[1..], keys[2..]);
    }
  }

  /** Merging moves lamports only between the accounts of one validator. */
  lemma {:induction false} MergeStakesKeeps(s: State, batch: seq<MergeStakesInstruction>, keys: seq<Address>)
    requires StakesOk(s) && MergeStakes(s, batch, keys).Ok?
    ensures var s' := MergeStakes(s, batch, keys).value;
            && StakesOk(s') && (Inv(s) ==> Inv(s'))
            && Capital(s') == Capital(s)
            && Assets(s') == Assets(s)
            && s'.bank.reserve == s.bank.reserve
  {
    StartOk(s, 0);
    MergeLoopKeeps(s, Start(s), batch, keys, 0);
    MergeLoopReserve(Start(s), batch, keys);
    CommitKeeps(s, MergeLoop(Start(s), batch, keys).value, 0);
  }

  lemma {:induction false} UnstakeLoopReserve(w: Work, batch: seq<UnstakeInstruction>, keys: seq<Address>, rent: Rent)
    requires UnstakeLoop(w, batch, keys, rent).Ok?
    ensures UnstakeLoop(w, batch, keys, rent).value.reserve == w.reserve
    decreases |batch|
  {
    if batch != [] {
      UnstakeLoopReserve(UnstakeOne(w, batch[0], keys, rent).value, batch[1..], keys[KeysUsed(batch[0])..], rent);
    }
  }

  /** Unstaking leaves the reserve alone and adds at most the owner's rent to the pool. */
  lemma {:induction false} UnstakeKeeps(s: State, batch: seq<UnstakeInstruction>, keys: seq<Address>, rent: Rent)
    requires StakesOk(s) && UnstakeFits(batch) && Unstake(s, batch, keys, rent).Ok?
    ensures var s' := Unstake(s, batch, keys, rent).value;
            && StakesOk(s') && (Inv(s) ==> Inv(s'))
            && Capital(s') == Capital(s)
            && Assets(s') >= Assets(s)
            && s'.bank.reserve == s.bank.reserve
            && (Contents.Apart(batch) ==> Contents.AllSplitOff(s.bank.accounts, s'.bank.accounts, batch, rent))
  {
    hide Contents.AllSplitOff;
    Contents.UnstakeExactly(s, batch, keys, rent);
    StartOk(s, 0);
    UnstakeLoopKeeps(s, Start(s), batch, keys, rent, 0);
    UnstakeLoopReserve(Start(s), batch, keys, rent);
    CommitKeeps(s, UnstakeLoop(Start(s), batch, keys, rent).value, 0);
  }
}
