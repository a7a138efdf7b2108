/** The client's refresh: one transaction a validator, then the pool. */
module RefreshOutcomes {
  import opened Machine
  import opened Data
  import opened Ledger
  import opened Invariants
  import opened Staking
  import opened Upkeep
  import opened UpkeepProofs
  import opened UpkeepContents

  /** The first `n` stake accounts of validator `v`. */
  function StakeKeys(v: Pubkey, n: nat): seq<Address> {
    seq(n, i requires 0 <= i < n => Pda(StakeKey(v, i)))
  }

  /** The keys of one record: its vote account and its stake accounts. */
  method RecordKeys(r: ValidatorStakeInfo) returns (keys: seq<Address>)
    ensures keys == KeysOf(r)
  {
    keys := [Wallet(r.validator)];
    for i := 0 to r.stakeCount
      invariant keys == [Wallet(r.validator)] + StakeKeys(r.validator, i)
    {
      assert StakeKeys(r.validator, i + 1) == StakeKeys(r.validator, i) + [Pda(StakeKey(r.validator, i))];
      keys := keys + [Pda(StakeKey(r.validator, i))];
    }
  }

  function KeysOf(r: ValidatorStakeInfo): seq<Address> {
    [Wallet(r.validator)] + StakeKeys(r.validator, r.stakeCount)
  }

  /** The first `n` records of the list as read, refreshed in as many transactions. */
  function RefreshEach(s: State, list: seq<ValidatorStakeInfo>, n: nat): Result<State, Error>
    requires n <= |list|
  {
    if n == 0 then Ok(s)
    else
      var s1 :- RefreshEach(s, list, n - 1);
      UpdateListBalance(s1, KeysOf(list[n - 1]))
  }

  function UpdatePool(s: State): Result<State, Error> {
    var s1 :- RefreshEach(s, s.validators, |s.validators|);
    UpdatePoolBalance(s1)
  }

  /** Failures over what an account holds. */
  predicate SweepError(e: Error) {
    e == WrongStakeState || e == StakeProgramFailure || e == TransferFailed
  }

  lemma {:induction false} SweepOneCommits(list: seq<ValidatorStakeInfo>, w0: Sweep, w: Sweep, k: nat, i: u32)
    requires k < |list| && SweepOk(list, w0, w, k, i) && i < list[k].stakeCount
    ensures var a := StakeKey(list[k].validator, i);
            var r := SweepOne(w, list[k].validator, i, Pda(a));
            && (r.Ok? <==> Sweepable(At(w.accounts, a)))
            && (r.Err? ==> SweepError(r.error))
  {
    var a := StakeKey(list[k].validator, i);
    AccountWithinRecord(w.accounts, list[k].validator, list[k].stakeCount, i);
    RecordWithinListed(list, w.accounts, |list|, k);
    if Live(At(w.accounts, a)) && !At(w.accounts, a).state.RewardsPool? {
      FreeKeeps(At(w.accounts, a));
    }
  }

  ghost predicate SweepableFrom(accounts: Accounts, v: Pubkey, i: nat, n: nat) {
    forall j :: i <= j < n ==> Sweepable(At(accounts, StakeKey(v, j)))
  }

  lemma {:induction false} SweepableNext(accounts: Accounts, accounts': Accounts, v: Pubkey, i: nat, n: nat)
    requires i < n && Sweepable(At(accounts, StakeKey(v, i)))
    requires forall a :: a != StakeKey(v, i) ==> At(accounts', a) == At(accounts, a)
    ensures SweepableFrom(accounts, v, i, n) <==> SweepableFrom(accounts', v, i + 1, n)
  {
    hide Sweepable;
    forall j | i < j < n ensures At(accounts', StakeKey(v, j)) == At(accounts, StakeKey(v, j)) {
    }
  }

  /** With the books in order a validator's sweep goes through exactly when each of its
      accounts can be swept. */
  lemma {:induction false} SweepCommits(list: seq<ValidatorStakeInfo>, w0: Sweep, w: Sweep, k: nat, i: u32,
                                        keys: seq<Address>)
    requires k < |list| && SweepOk(list, w0, w, k, i)
    requires keys == StakeKeys(list[k].validator, list[k].stakeCount)[i..]
    ensures var r := SweepLoop(w, list[k].validator, i, list[k].stakeCount, keys);
            && (r.Ok? <==> SweepableFrom(w.accounts, list[k].validator, i, list[k].stakeCount))
            && (r.Err? ==> SweepError(r.error))
    decreases list[k].stakeCount - i
  {
    var v, n := list[k].validator, list[k].stakeCount;
    assert i <= n;
    hide SweepOne, Sweepable, SweepOk;
    if i < n {
      assert keys[0] == Pda(StakeKey(v, i)) && keys[1..] == StakeKeys(v, n)[i + 1..];
      SweepOneCommits(list, w0, w, k, i);
      var r := SweepOne(w, v, i, keys[0]);
      if r.Ok? {
        SweepOneKeeps(list, w0, w, k, i, keys[0]);
        SweepOneContents(w, v, i, keys[0]);
        SweepCommits(list, w0, r.value, k, i + 1, keys[1..]);
        SweepableNext(w.accounts, r.value.accounts, v, i, n);
      } else {
        assert !Sweepable(At(w.accounts, StakeKey(v, i)));
      }
    }
  }

  /** Every counted account of the record can be swept. */
  ghost predicate AllSweepable(r: ValidatorStakeInfo, accounts: Accounts) {
    SweepableFrom(accounts, r.validator, 0, r.stakeCount)
  }

  /** A transaction for a record as it stands commits exactly when its accounts can be swept. */
  lemma {:induction false} RecordCommits(s: State, k: nat)
    requires StakesOk(s) && k < |s.validators|
    ensures var r := UpdateListBalance(s, KeysOf(s.validators[k]));
            && (r.Ok? <==> AllSweepable(s.validators[k], s.bank.accounts))
            && (r.Err? ==> SweepError(r.error))
  {
    hide SweepLoop, Sweepable;
    var r := s.validators[k];
    var keys, w := KeysOf(r), ListWork(s.validators, s.bank.accounts, s.bank.reserve);
    var start := Sweep(w.accounts, w.reserve, 0, 0);
    CountOfListed(s.validators, k);
    assert keys[0] == Wallet(r.validator) && keys[1..] == StakeKeys(r.validator, r.stakeCount);
    assert StakeKeys(r.validator, r.stakeCount)[0..] == StakeKeys(r.validator, r.stakeCount);
    SweepCommits(s.validators, start, start, k, 0, keys[1..]);
    assert FindVote(w.list, keys[0]) == Some(k) && keys[1 + r.stakeCount..] == [];
    var w1 := RefreshOne(w, k, keys[1..], s.bank.epoch);
    if w1.Ok? {
      assert RefreshLoop(w1.value, [], s.bank.epoch) == w1;
    }
  }

  /** After `n` transactions: those records are exact, the others as read, nothing is lost. */
  ghost predicate RefreshedTo(s: State, s': State, n: nat) {
    && StakesOk(s') && ClockOk(s') && s'.bank.epoch == s.bank.epoch
    && Assets(s') == Assets(s)
    && SameNames(s.validators, s'.validators)
    && (forall j :: 0 <= j < n && j < |s'.validators| ==> Exact(s'.validators[j], s'.bank.accounts, s.bank.epoch))
    && (forall j :: n <= j < |s'.validators| ==>
          && s'.validators[j] == s.validators[j]
          && (AllSweepable(s.validators[j], s'.bank.accounts) <==> AllSweepable(s.validators[j], s.bank.accounts)))
  }

  lemma {:induction false} RefreshNext(s: State, s1: State, n: nat)
    requires n < |s.validators| && RefreshedTo(s, s1, n) && UpdateListBalance(s1, KeysOf(s.validators[n])).Ok?
    ensures RefreshedTo(s, UpdateListBalance(s1, KeysOf(s.validators[n])).value, n + 1)
  {
    hide RefreshLoop, Listed, NoStranded, Lamports, Sweepable, SweptTo, ListTrimmed;
    var keys := KeysOf(s.validators[n]);
    UpdateListBalanceKeeps(s1, keys);
    RefreshLoopAnywhere(ListWork(s1.validators, s1.bank.accounts, s1.bank.reserve), keys, s1.bank.epoch);
    assert keys[0] == Wallet(s.validators[n].validator);
    forall j | n < j < |s1.validators| ensures Wallet(s1.validators[j].validator) !in keys {
      assert s1.validators[n].validator != s1.validators[j].validator;
    }
    var s2 := UpdateListBalance(s1, keys).value;
    forall j | n < j < |s1.validators|
      ensures AllSweepable(s.validators[j], s2.bank.accounts) <==> AllSweepable(s.validators[j], s1.bank.accounts)
    {
      assert forall i: nat :: At(s2.bank.accounts, StakeKey(s1.validators[j].validator, i))
                           == At(s1.bank.accounts, StakeKey(s1.validators[j].validator, i));
    }
  }

  lemma {:induction false} RefreshEachKeeps(s: State, n: nat)
    requires StakesOk(s) && ClockOk(s) && n <= |s.validators|
    ensures var r := RefreshEach(s, s.validators, n);
            && (r.Ok? <==> forall k :: 0 <= k < n ==> AllSweepable(s.validators[k], s.bank.accounts))
            && (r.Ok? ==> RefreshedTo(s, r.value, n))
            && (r.Err? ==> SweepError(r.error))
  {
    hide UpdateListBalance, StakesOk, ClockOk, AllSweepable;
    if n > 0 {
      RefreshEachKeeps(s, n - 1);
      var r := RefreshEach(s, s.validators, n - 1);
      if r.Ok? {
        assert r.value.validators[n - 1] == s.validators[n - 1];
        RecordCommits(r.value, n - 1);
        if UpdateListBalance(r.value, KeysOf(s.validators[n - 1])).Ok? {
          RefreshNext(s, r.value, n - 1);
        }
      }
    }
  }

  /** The client's refresh goes through exactly when every counted account can be swept, and
      is refused over nothing else. It then records the assets exactly, although validators
      are refreshed one by one, and leaves the stake backed. */
  lemma {:induction false} UpdatePoolOutcome(s: State)
    requires StakesOk(s) && ClockOk(s)
    ensures UpdatePool(s).Ok? <==>
              forall k :: 0 <= k < |s.validators| ==> AllSweepable(s.validators[k], s.bank.accounts)
    ensures UpdatePool(s).Err? ==> SweepError(UpdatePool(s).error)
    ensures UpdatePool(s).Ok? ==>
              var s' := UpdatePool(s).value;
              && s'.pool.stakeTotal == Assets(s) == Assets(s')
              && s'.pool.lastUpdateEpoch == s.bank.epoch
              && Backed(s') && StakesOk(s')
  {
    hide RefreshEach, TotalLoop, Listed, AllSweepable;
    RefreshEachKeeps(s, |s.validators|);
    var r := RefreshEach(s, s.validators, |s.validators|);
    if r.Ok? {
      UpdatePoolBalanceKeeps(r.value);
      BalancesCovered(r.value.validators, r.value.bank.accounts, |r.value.validators|);
      ListedIsTotal(r.value.validators, r.value.bank.accounts);
    }
  }

  lemma {:induction false} ListedIsTotal(list: seq<ValidatorStakeInfo>, accounts: Accounts)
    ensures Listed(list, accounts) == ListedTo(list, accounts, |list|)
  {
  }
}
