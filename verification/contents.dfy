/** What the batches leave in each account, told account by account and in numbers. */
module StakingContents {
  import opened Machine
  import opened Data
  import opened Ledger
  import opened Invariants
  import opened Staking

  /** The list with at most the counts changed. */
  ghost predicate OnlyCounts(list: seq<ValidatorStakeInfo>, list': seq<ValidatorStakeInfo>) {
    |list'| == |list|
    && forall k :: 0 <= k < |list| ==> list'[k].(stakeCount := list[k].stakeCount) == list[k]
  }

  /** The list with only the record of `v` changed, to count `count` accounts. */
  ghost predicate Recounted(list: seq<ValidatorStakeInfo>, list': seq<ValidatorStakeInfo>, v: Pubkey, count: nat) {
    && OnlyCounts(list, list')
    && (forall k :: 0 <= k < |list| && Find(list, v) != Some(k) ==> list'[k] == list[k])
    && Find(list, v).Some? && list'[Find(list, v).value].stakeCount == count
  }

  /** A stake account of this state, or nothing if no lamports are left. */
  predicate Holds(acc: Account, lamports: nat, state: StakeState) {
    acc.lamports == lamports && if lamports == 0 then acc.System? else acc.Stake? && acc.state == state
  }

  // ---- DelegateReserve

  /** Lamports the batch sends to account `a`. */
  function Sent(batch: seq<DelegateReserveInstruction>, keys: seq<Address>, a: StakeKey): nat
    decreases |batch|
  {
    if batch == [] || |keys| < 2 then 0
    else
      (if keys[0] == Wallet(a.validator) && batch[0].stakeIndex == a.index then batch[0].amount else 0) +
      Sent(batch[1..], keys[2..], a)
  }

  /** Lamports it sends to accounts of validator `v`. */
  function SentTo(batch: seq<DelegateReserveInstruction>, keys: seq<Address>, v: Pubkey): nat
    decreases |batch|
  {
    if batch == [] || |keys| < 2 then 0
    else (if keys[0] == Wallet(v) then batch[0].amount else 0) + SentTo(batch[1..], keys[2..], v)
  }

  function SentInAll(batch: seq<DelegateReserveInstruction>): nat {
    if batch == [] then 0 else batch[0].amount + SentInAll(batch[1..])
  }

  /** Some entry names account `a`. */
  predicate Named(batch: seq<DelegateReserveInstruction>, keys: seq<Address>, a: StakeKey)
    decreases |batch|
  {
    batch != [] && |keys| >= 2 &&
    ((keys[0] == Wallet(a.validator) && batch[0].stakeIndex == a.index) || Named(batch[1..], keys[2..], a))
  }

  /** All lamports but the rent are delegated. */
  predicate WhollyDelegated(acc: Account, rent: Rent) {
    acc.Stake? && acc.state.Delegated? && acc.state.rentReserve == rent.stake
    && acc.state.stake == Max(0, acc.lamports - rent.stake)
  }

  /** Account `a` after a batch: what was sent is added, and then all of it is delegated;
      an account not named is as it was. */
  ghost predicate Funded(accounts: Accounts, accounts': Accounts, batch: seq<DelegateReserveInstruction>,
                         keys: seq<Address>, rent: Rent, a: StakeKey)
  {
    && At(accounts', a).lamports == At(accounts, a).lamports + Sent(batch, keys, a)
    && (if Named(batch, keys, a) then WhollyDelegated(At(accounts', a), rent) else At(accounts', a) == At(accounts, a))
  }

  lemma {:induction false} DelegateOneContents(w: Work, e: DelegateReserveInstruction, vote: Address, stake: Address,
                                               available: u64, rent: Rent, a: StakeKey)
    requires DelegateOne(w, e, vote, stake, available, rent).Ok?
    ensures var w' := DelegateOne(w, e, vote, stake, available, rent).value;
            var named := vote == Wallet(a.validator) && e.stakeIndex == a.index;
            && (if named then
                  At(w'.accounts, a).lamports == At(w.accounts, a).lamports + e.amount
                  && WhollyDelegated(At(w'.accounts, a), rent)
                else At(w'.accounts, a) == At(w.accounts, a))
            && w'.reserve + e.amount == w.reserve && w'.outside == w.outside
  {
  }

  /** The record: the amount is added to its cached balance, and the account is counted
      if it is the next. */
  lemma {:induction false} DelegateOneRecord(w: Work, e: DelegateReserveInstruction, vote: Address, stake: Address,
                                             available: u64, rent: Rent)
    requires DelegateOne(w, e, vote, stake, available, rent).Ok?
    ensures var w' := DelegateOne(w, e, vote, stake, available, rent).value;
            && vote.Wallet? && Find(w.list, vote.key).Some?
            && var k := Find(w.list, vote.key).value;
               var r, r' := w.list[k], w'.list[k];
               && |w'.list| == |w.list| && (forall j :: 0 <= j < |w.list| && j != k ==> w'.list[j] == w.list[j])
               && r'.balance == (r.balance + e.amount) % U64_LIMIT
               && r'.stakeCount
                  == (if e.stakeIndex == r.stakeCount then (r.stakeCount + 1) % U32_LIMIT else r.stakeCount)
               && r' == r.(balance := r'.balance, stakeCount := r'.stakeCount)
               && w'.changed == (w.changed || e.stakeIndex == r.stakeCount)
  {
    WrapsModulo(w.list[Find(w.list, vote.key).value].balance, e.amount);
  }

  lemma {:induction false} DelegateLoopContents(w: Work, batch: seq<DelegateReserveInstruction>, keys: seq<Address>,
                                                available: u64, rent: Rent, a: StakeKey)
    requires DelegateLoop(w, batch, keys, available, rent).Ok?
    ensures var w' := DelegateLoop(w, batch, keys, available, rent).value;
            && Funded(w.accounts, w'.accounts, batch, keys, rent, a)
            && w'.reserve + SentInAll(batch) == w.reserve && w'.outside == w.outside
    decreases |batch|
  {
    hide DelegateOne;
    if batch != [] {
      var w1 := DelegateOne(w, batch[0], keys[0], keys[1], available, rent).value;
      DelegateOneContents(w, batch[0], keys[0], keys[1], available, rent, a);
      DelegateLoopContents(w1, batch[1..], keys[2..], available, rent, a);
    }
  }

  /** Cached balances of the working list grow by what is sent to each validator. */
  lemma {:induction false} DelegateLoopBalances(w: Work, batch: seq<DelegateReserveInstruction>, keys: seq<Address>,
                                                available: u64, rent: Rent, k: nat)
    requires Distinct(w.list) && k < |w.list| && DelegateLoop(w, batch, keys, available, rent).Ok?
    ensures var w' := DelegateLoop(w, batch, keys, available, rent).value;
            && |w'.list| == |w.list|
            && w'.list[k].balance == (w.list[k].balance + SentTo(batch, keys, w.list[k].validator)) % U64_LIMIT
            && w'.list[k] == w.list[k].(balance := w'.list[k].balance, stakeCount := w'.list[k].stakeCount)
    decreases |batch|
  {
    hide DelegateOne;
    if batch != [] {
      var w1 := DelegateOne(w, batch[0], keys[0], keys[1], available, rent).value;
      DelegateOneRecord(w, batch[0], keys[0], keys[1], available, rent);
      CountOfListed(w.list, k);
      DelegateLoopBalances(w1, batch[1..], keys[2..], available, rent, k);
      SumModulo(w.list[k].balance + batch[0].amount, SentTo(batch[1..], keys[2..], w.list[k].validator));
    }
  }

  /** Every cached balance is larger by what the batch sends to its validator. */
  ghost predicate BalancesGrown(list: seq<ValidatorStakeInfo>, list': seq<ValidatorStakeInfo>,
                                batch: seq<DelegateReserveInstruction>, keys: seq<Address>)
  {
    && |list'| == |list|
    && forall k :: 0 <= k < |list| ==>
         list'[k].balance == (list[k].balance + SentTo(batch, keys, list[k].validator)) % U64_LIMIT
  }

  /** What a committed delegation does: every account holds what was sent to it on top of
      what it held, all of it delegated; the reserve paid exactly that; pool, queue and tokens are
      as before. The list is stored, with its balances, only if some count changed. */
  lemma {:induction false} DelegateReserveExactly(s: State, batch: seq<DelegateReserveInstruction>, keys: seq<Address>,
                                                  rent: Rent)
    requires DelegateReserve(s, batch, keys, rent).Ok?
    ensures var s' := DelegateReserve(s, batch, keys, rent).value;
            && (forall a :: Funded(s.bank.accounts, s'.bank.accounts, batch, keys, rent, a))
            && s'.bank.reserve + SentInAll(batch) == s.bank.reserve
            && s' == s.(validators := s'.validators,
                        bank := s.bank.(accounts := s'.bank.accounts, reserve := s'.bank.reserve))
            && (Distinct(s.validators) ==>
                  s'.validators == s.validators || BalancesGrown(s.validators, s'.validators, batch, keys))
  {
    hide DelegateLoop, Funded, BalancesGrown, SentInAll;
    var available := Spendable(s, rent);
    var w := DelegateLoop(Start(s), batch, keys, available, rent).value;
    forall a ensures Funded(s.bank.accounts, w.accounts, batch, keys, rent, a) {
      DelegateLoopContents(Start(s), batch, keys, available, rent, a);
    }
    DelegateLoopContents(Start(s), batch, keys, available, rent, StakeKey(s.pool.owner, 0));
    if Distinct(s.validators) {
      BalancesFunded(s, batch, keys, available, rent);
    }
  }

  lemma {:induction false} BalancesFunded(s: State, batch: seq<DelegateReserveInstruction>, keys: seq<Address>,
                                          available: u64, rent: Rent)
    requires Distinct(s.validators) && DelegateLoop(Start(s), batch, keys, available, rent).Ok?
    ensures BalancesGrown(s.validators, DelegateLoop(Start(s), batch, keys, available, rent).value.list, batch, keys)
  {
    hide DelegateLoop, SentTo;
    DelegateLoopLength(Start(s), batch, keys, available, rent);
    forall k | 0 <= k < |s.validators|
      ensures DelegateLoop(Start(s), batch, keys, available, rent).value.list[k].balance
           == (s.validators[k].balance + SentTo(batch, keys, s.validators[k].validator)) % U64_LIMIT
    {
      DelegateLoopBalances(Start(s), batch, keys, available, rent, k);
    }
  }

  lemma {:induction false} DelegateLoopLength(w: Work, batch: seq<DelegateReserveInstruction>, keys: seq<Address>,
                                              available: u64, rent: Rent)
    requires DelegateLoop(w, batch, keys, available, rent).Ok?
    ensures |DelegateLoop(w, batch, keys, available, rent).value.list| == |w.list|
    decreases |batch|
  {
    if batch != [] {
      var w1 := DelegateOne(w, batch[0], keys[0], keys[1], available, rent).value;
      DelegateLoopLength(w1, batch[1..], keys[2..], available, rent);
    }
  }

  // ---- MergeStakes

  /** A merged pair: the main account holds both balances and both stakes, the additional one
      is gone; or, over different credits, neither is touched. Nobody else is. */
  ghost predicate MergedInto(accounts: Accounts, accounts': Accounts, a: StakeKey, b: StakeKey) {
    var x, y := At(accounts, a), At(accounts, b);
    && x.Stake? && y.Stake?
    && if CreditsDiffer(x.state, y.state) then accounts' == accounts
       else
         && At(accounts', b) == System(0)
         && At(accounts', a).Stake? && At(accounts', a).lamports == x.lamports + y.lamports
         && (if y.state.Delegated?
             then x.state.Delegated? && x.state.stake + y.state.stake < U64_LIMIT
                  && At(accounts', a).state == x.state.(stake := x.state.stake + y.state.stake)
             else At(accounts', a).state == x.state)
         && (forall k :: k != a && k != b ==> At(accounts', k) == At(accounts, k))
  }

  /** One committed pair; a drained account at the last index is no longer counted. */
  lemma {:induction false} MergeOneContents(w: Work, e: MergeStakesInstruction, main: Address, additional: Address)
    requires MergeOne(w, e, main, additional).Ok?
    ensures var w' := MergeOne(w, e, main, additional).value;
            var a, b := StakeKey(e.validator, e.mainIndex), StakeKey(e.validator, e.additionalIndex);
            var count := CountOf(w.list, e.validator);
            && MergedInto(w.accounts, w'.accounts, a, b)
            && (if At(w'.accounts, b) == System(0) && b.index + 1 == count
                then Recounted(w.list, w'.list, e.validator, count - 1) && w'.changed
                else w'.list == w.list && w'.changed == w.changed)
            && w'.reserve == w.reserve && w'.outside == w.outside && w'.total == w.total
  {
  }

  // ---- Unstake

  /** What an entry leaves in its accounts: `amount` and as much delegated stake has moved
      from the source to a new account, which also holds its rent; or nothing has moved. */
  ghost predicate SplitOff(accounts: Accounts, accounts': Accounts, e: UnstakeInstruction, rent: Rent) {
    var a, b := StakeKey(e.validator, e.sourceIndex), StakeKey(e.validator, e.splitIndex);
    var source := At(accounts, a);
    && IsDelegated(source)
    && if e.splitIndex == e.sourceIndex then At(accounts', a) == source
       else
         && At(accounts, b) == System(0) && e.amount <= source.lamports
         && Holds(At(accounts', a), source.lamports - e.amount,
                  source.state.(stake := if e.amount <= source.state.stake then source.state.stake - e.amount else 0))
         && Holds(At(accounts', b), rent.stake + e.amount, source.state.(rentReserve := rent.stake, stake := e.amount))
  }

  /** The entry names account `a`. */
  predicate Touches(e: UnstakeInstruction, a: StakeKey) {
    a.validator == e.validator && (a.index == e.sourceIndex || a.index == e.splitIndex)
  }

  lemma {:induction false} UnstakeOneContents(w: Work, e: UnstakeInstruction, keys: seq<Address>, rent: Rent)
    requires UnstakeOne(w, e, keys, rent).Ok?
    ensures var w' := UnstakeOne(w, e, keys, rent).value;
            var count := CountOf(w.list, e.validator);
            && SplitOff(w.accounts, w'.accounts, e, rent)
            && (forall a :: !Touches(e, a) ==> At(w'.accounts, a) == At(w.accounts, a))
            && w'.reserve == w.reserve && w'.total == w.total
            && w'.outside + (if e.splitIndex == e.sourceIndex then 0 else rent.stake) == w.outside
            && (if e.splitIndex != e.sourceIndex && e.splitIndex == count
                then Recounted(w.list, w'.list, e.validator, (count + 1) % U32_LIMIT) && w'.changed
                else w'.list == w.list && w'.changed == w.changed)
  {
  }

  /** An entry commits exactly for a counted, delegated source and, if it splits, into an
      empty address within the count or next, with no more than the source holds and the
      rent at hand; the accounts passed being those it names. */
  lemma {:induction false} UnstakeOneCommits(w: Work, e: UnstakeInstruction, keys: seq<Address>, rent: Rent)
    ensures var a, b := StakeKey(e.validator, e.sourceIndex), StakeKey(e.validator, e.splitIndex);
            UnstakeOne(w, e, keys, rent).Ok? <==>
              && Find(w.list, e.validator).Some?
              && e.sourceIndex < CountOf(w.list, e.validator) && e.splitIndex <= CountOf(w.list, e.validator)
              && keys != [] && keys[0] == Pda(a) && IsDelegated(At(w.accounts, a))
              && (e.splitIndex != e.sourceIndex ==>
                    && |keys| >= 2 && keys[1] == Pda(b) && At(w.accounts, b) == System(0)
                    && e.amount <= At(w.accounts, a).lamports
                    && rent.stake <= w.outside && rent.stake + e.amount < U64_LIMIT)
  {
  }

  /** No account is named by two entries. */
  ghost predicate Apart(batch: seq<UnstakeInstruction>) {
    forall i, j, a :: 0 <= i < j < |batch| && Touches(batch[i], a) ==> !Touches(batch[j], a)
  }

  /** Rent the owner pays for the accounts the batch creates. */
  function RentPaid(batch: seq<UnstakeInstruction>, rent: Rent): nat {
    if batch == [] then 0
    else (if batch[0].splitIndex == batch[0].sourceIndex then 0 else rent.stake) + RentPaid(batch[1..], rent)
  }

  /** What a batch of distinct accounts leaves: each entry's accounts as that entry alone
      would leave them, all others as they were. */
  ghost predicate AllSplitOff(accounts: Accounts, accounts': Accounts, batch: seq<UnstakeInstruction>, rent: Rent) {
    && (forall i :: 0 <= i < |batch| ==> SplitOff(accounts, accounts', batch[i], rent))
    && (forall a :: (forall i :: 0 <= i < |batch| ==> !Touches(batch[i], a)) ==> At(accounts', a) == At(accounts, a))
  }

  lemma {:induction false} SplitOffSame(accounts: Accounts, mid: Accounts, accounts': Accounts, e: UnstakeInstruction,
                                        rent: Rent)
    requires forall a :: Touches(e, a) ==> At(mid, a) == At(accounts, a)
    ensures SplitOff(accounts, accounts', e, rent) <==> SplitOff(mid, accounts', e, rent)
  {
    var a, b := StakeKey(e.validator, e.sourceIndex), StakeKey(e.validator, e.splitIndex);
    assert Touches(e, a) && Touches(e, b);
  }

  lemma {:induction false} SplitOffStays(accounts: Accounts, mid: Accounts, accounts': Accounts, e: UnstakeInstruction,
                                         rent: Rent)
    requires SplitOff(accounts, mid, e, rent) && forall a :: Touches(e, a) ==> At(accounts', a) == At(mid, a)
    ensures SplitOff(accounts, accounts', e, rent)
  {
    var a, b := StakeKey(e.validator, e.sourceIndex), StakeKey(e.validator, e.splitIndex);
    assert Touches(e, a) && Touches(e, b);
  }

  lemma {:induction false} UnstakeLoopContents(w: Work, batch: seq<UnstakeInstruction>, keys: seq<Address>, rent: Rent)
    requires UnstakeLoop(w, batch, keys, rent).Ok?
    ensures var w' := UnstakeLoop(w, batch, keys, rent).value;
            && (Apart(batch) ==> AllSplitOff(w.accounts, w'.accounts, batch, rent))
            && w'.reserve == w.reserve && w'.outside + RentPaid(batch, rent) == w.outside
    decreases |batch|
  {
    hide UnstakeOne, SplitOff;
    if batch != [] {
      var w1 := UnstakeOne(w, batch[0], keys, rent).value;
      var w' := UnstakeLoop(w, batch, keys, rent).value;
      UnstakeOneContents(w, batch[0], keys, rent);
      UnstakeLoopContents(w1, batch[1..], keys[KeysUsed(batch[0])..], rent);
      if Apart(batch) {
        forall i, j, a | 0 <= i < j < |batch[1..]| && Touches(batch[1..][i], a) ensures !Touches(batch[1..][j], a) {
          assert batch[1..][i] == batch[i + 1] && batch[1..][j] == batch[j + 1];
        }
        ApartSplits(w.accounts, w1.accounts, w'.accounts, batch, rent);
      }
    }
  }

  lemma {:induction false} ApartSplits(accounts: Accounts, mid: Accounts, accounts': Accounts,
                                       batch: seq<UnstakeInstruction>, rent: Rent)
    requires batch != [] && Apart(batch)
    requires SplitOff(accounts, mid, batch[0], rent)
    requires forall a :: !Touches(batch[0], a) ==> At(mid, a) == At(accounts, a)
    requires AllSplitOff(mid, accounts', batch[1..], rent)
    ensures AllSplitOff(accounts, accounts', batch, rent)
  {
    hide SplitOff;
    var rest := batch[1..];
    forall a | forall i :: 0 <= i < |rest| ==> !Touches(rest[i], a) ensures At(accounts', a) == At(mid, a) {
    }
    forall a | Touches(batch[0], a) ensures At(accounts', a) == At(mid, a) {
      forall i | 0 <= i < |rest| ensures !Touches(rest[i], a) {
        assert rest[i] == batch[i + 1];
      }
    }
    SplitOffStays(accounts, mid, accounts', batch[0], rent);
    forall i | 0 < i < |batch| ensures SplitOff(accounts, accounts', batch[i], rent) {
      assert rest[i - 1] == batch[i];
      forall a | Touches(batch[i], a) ensures At(mid, a) == At(accounts, a) {
        assert !Touches(batch[0], a);
      }
      SplitOffSame(accounts, mid, accounts', batch[i], rent);
    }
    forall a | forall i :: 0 <= i < |batch| ==> !Touches(batch[i], a) ensures At(accounts', a) == At(accounts, a) {
      forall i | 0 <= i < |rest| ensures !Touches(rest[i], a) {
        assert rest[i] == batch[i + 1];
      }
    }
  }

  /** A working list of which only counts changed. */
  lemma {:induction false} UnstakeLoopRecords(w: Work, batch: seq<UnstakeInstruction>, keys: seq<Address>, rent: Rent)
    requires UnstakeLoop(w, batch, keys, rent).Ok?
    ensures var w' := UnstakeLoop(w, batch, keys, rent).value;
            && OnlyCounts(w.list, w'.list)
            && (forall k :: 0 <= k < |w.list| && w'.list[k] != w.list[k] ==>
                  exists i :: 0 <= i < |batch| && batch[i].validator == w.list[k].validator
                              && batch[i].splitIndex != batch[i].sourceIndex)
    decreases |batch|
  {
    hide UnstakeOne;
    if batch != [] {
      var w1 := UnstakeOne(w, batch[0], keys, rent).value;
      UnstakeOneContents(w, batch[0], keys, rent);
      UnstakeLoopRecords(w1, batch[1..], keys[KeysUsed(batch[0])..], rent);
      var w' := UnstakeLoop(w, batch, keys, rent).value;
      forall k | 0 <= k < |w.list| && w'.list[k] != w.list[k]
        ensures exists i :: 0 <= i < |batch| && batch[i].validator == w.list[k].validator
                            && batch[i].splitIndex != batch[i].sourceIndex
      {
        if w'.list[k] != w1.list[k] {
          var i :| 0 <= i < |batch[1..]| && batch[1..][i].validator == w1.list[k].validator
                   && batch[1..][i].splitIndex != batch[1..][i].sourceIndex;
          assert batch[i + 1] == batch[1..][i];
        } else {
          assert batch[0].validator == w.list[k].validator;
        }
      }
    }
  }

  /** What a committed unstake of distinct accounts does, account by account. In any case the
      owner pays the rent of the new accounts, counts change only of validators split, and
      reserve, pool, queue and tokens are as before. */
  lemma {:induction false} UnstakeExactly(s: State, batch: seq<UnstakeInstruction>, keys: seq<Address>, rent: Rent)
    requires Unstake(s, batch, keys, rent).Ok?
    ensures var s' := Unstake(s, batch, keys, rent).value;
            && (Apart(batch) ==> AllSplitOff(s.bank.accounts, s'.bank.accounts, batch, rent))
            && s'.bank.outside + RentPaid(batch, rent) == s.bank.outside
            && s' == s.(validators := s'.validators,
                        bank := s.bank.(accounts := s'.bank.accounts, outside := s'.bank.outside))
            && OnlyCounts(s.validators, s'.validators)
            && (forall k :: 0 <= k < |s.validators| && s'.validators[k] != s.validators[k] ==>
                  exists i :: 0 <= i < |batch| && batch[i].validator == s.validators[k].validator
                              && batch[i].splitIndex != batch[i].sourceIndex)
  {
    hide UnstakeLoop, AllSplitOff;
    UnstakeLoopContents(Start(s), batch, keys, rent);
    UnstakeLoopRecords(Start(s), batch, keys, rent);
  }
}

/** What a list update leaves in each account and record. */
module UpkeepContents {
  import opened Machine
  import opened Data
  import opened Ledger
  import opened Invariants
  import opened Staking
  import opened Upkeep

  /** A stake account with something in it. */
  predicate Live(acc: Account) {
    acc.Stake? && acc.lamports > 0
  }

  /** Lamports a stake account of this state keeps: its rent and its stake. */
  function Keeps(state: StakeState): nat {
    match state
    case Initialized(rent) => rent
    case Delegated(rent, stake, _, _, _) => (rent + stake) % U64_LIMIT
    case _ => 0
  }

  /** A swept account: a stake account is left with its rent and its stake, and gone if that
      is nothing; any other account is emptied. */
  predicate SweptTo(acc: Account, acc': Account) {
    if Live(acc) then
      && !acc.state.RewardsPool? && Keeps(acc.state) <= acc.lamports
      && acc' == (if Keeps(acc.state) == 0 then System(0) else Stake(Keeps(acc.state), acc.state))
    else if acc.System? then acc' == System(0)
    else acc' == acc
  }

  /** The sweep goes through: the account is no rewards pool and holds what it must keep. */
  predicate Sweepable(acc: Account) {
    Live(acc) ==> !acc.state.RewardsPool? && Keeps(acc.state) <= acc.lamports
  }

  lemma {:induction false} SweptTwice(acc: Account, mid: Account, acc': Account)
    requires SweptTo(acc, mid) && (mid == acc' || SweptTo(mid, acc'))
    ensures SweptTo(acc, acc')
  {
  }

  lemma {:induction false} SweepOneContents(w: Sweep, v: Pubkey, i: u32, key: Address)
    requires i + 1 < U32_LIMIT && SweepOne(w, v, i, key).Ok?
    ensures var w' := SweepOne(w, v, i, key).value;
            var acc, acc' := At(w.accounts, StakeKey(v, i)), At(w'.accounts, StakeKey(v, i));
            && SweptTo(acc, acc')
            && (forall a: StakeKey :: a != StakeKey(v, i) ==> At(w'.accounts, a) == At(w.accounts, a))
            && w'.reserve + acc'.lamports == w.reserve + acc.lamports
            && w'.balance == (w.balance + acc'.lamports) % U64_LIMIT
            && w'.count == (if Live(acc) then i + 1 else w.count)
  {
    var acc := At(w.accounts, StakeKey(v, i));
    if Live(acc) {
      FreeKeeps(acc);
      WrapsModulo(w.balance, acc.lamports - Free(acc));
    }
  }

  lemma {:induction false} FreeKeeps(acc: Account)
    requires Live(acc) && !acc.state.RewardsPool?
    ensures Free(acc) <= acc.lamports <==> Keeps(acc.state) <= acc.lamports
    ensures Free(acc) <= acc.lamports ==> acc.lamports - Free(acc) == Keeps(acc.state)
  {
    if acc.state.Delegated? {
      WrapsModulo(acc.state.rentReserve, acc.state.stake);
    }
  }

  /** Validator `v`'s accounts from `i` up to `n` are swept, no other is touched. */
  ghost predicate AllSwept(accounts: Accounts, accounts': Accounts, v: Pubkey, i: nat, n: nat) {
    forall a: StakeKey :: if a.validator == v && i <= a.index < n then SweptTo(At(accounts, a), At(accounts', a))
                          else At(accounts', a) == At(accounts, a)
  }

  /** The count is one past the last live one of them. */
  ghost predicate Counted(accounts: Accounts, count: nat, count': nat, v: Pubkey, i: nat, n: nat) {
    && (count' == count || (i < count' <= n && Live(At(accounts, StakeKey(v, count' - 1)))))
    && (forall j :: i <= j < n && (count' <= j || count' == count) ==> !Live(At(accounts, StakeKey(v, j))))
  }

  /** Sweeping them moves to the reserve what they lose, and sums up what they keep. */
  ghost predicate SweptFrom(w: Sweep, w': Sweep, v: Pubkey, i: nat, n: nat) {
    && AllSwept(w.accounts, w'.accounts, v, i, n)
    && w'.reserve + Lamports(w'.accounts, v, n) == w.reserve + Lamports(w.accounts, v, n)
    && w'.balance == (w.balance + Lamports(w'.accounts, v, n) - Lamports(w.accounts, v, i)) % U64_LIMIT
    && Counted(w.accounts, w.count, w'.count, v, i, n)
  }

  lemma {:induction false} AllSweptNext(accounts: Accounts, mid: Accounts, accounts': Accounts, v: Pubkey, i: nat,
                                        n: nat)
    requires i < n && AllSwept(mid, accounts', v, i + 1, n)
    requires SweptTo(At(accounts, StakeKey(v, i)), At(mid, StakeKey(v, i)))
    requires forall a :: a != StakeKey(v, i) ==> At(mid, a) == At(accounts, a)
    ensures AllSwept(accounts, accounts', v, i, n)
  {
    hide SweptTo;
  }

  lemma {:induction false} CountedNext(accounts: Accounts, mid: Accounts, count: nat, mid': nat, count': nat,
                                       v: Pubkey, i: nat, n: nat)
    requires i < n && count <= i && Counted(mid, mid', count', v, i + 1, n)
    requires mid' == if Live(At(accounts, StakeKey(v, i))) then i + 1 else count
    requires forall a :: a != StakeKey(v, i) ==> At(mid, a) == At(accounts, a)
    ensures Counted(accounts, count, count', v, i, n)
  {
    forall j | i <= j < n && (count' <= j || count' == count) ensures !Live(At(accounts, StakeKey(v, j))) {
      assert j != i ==> At(mid, StakeKey(v, j)) == At(accounts, StakeKey(v, j));
    }
    if count' != mid' {
      assert At(mid, StakeKey(v, count' - 1)) == At(accounts, StakeKey(v, count' - 1));
    }
  }

  lemma {:induction false} SweepNext(w: Sweep, w1: Sweep, w': Sweep, v: Pubkey, i: u32, n: u32, key: Address)
    requires i < n && SweepOne(w, v, i, key) == Ok(w1) && SweptFrom(w1, w', v, i + 1, n) && w.count <= i
    ensures SweptFrom(w, w', v, i, n)
  {
    hide SweepOne, SweptTo, AllSwept, Counted;
    SweepOneContents(w, v, i, key);
    OneDiffers(w.accounts, w1.accounts, v, i, n);
    OneDiffers(w.accounts, w1.accounts, v, i, i);
    assert Lamports(w1.accounts, v, i + 1) == Lamports(w1.accounts, v, i) + At(w1.accounts, StakeKey(v, i)).lamports;
    SumModulo(w.balance + At(w1.accounts, StakeKey(v, i)).lamports,
              Lamports(w'.accounts, v, n) - Lamports(w1.accounts, v, i + 1));
    AllSweptNext(w.accounts, w1.accounts, w'.accounts, v, i, n);
    CountedNext(w.accounts, w1.accounts, w.count, w1.count, w'.count, v, i, n);
  }

  /** Account `i` alone differs. */
  lemma {:induction false} OneDiffers(accounts: Accounts, accounts': Accounts, v: Pubkey, i: nat, n: nat)
    requires forall a: StakeKey :: a != StakeKey(v, i) ==> At(accounts', a) == At(accounts, a)
    ensures Lamports(accounts', v, n)
         == Lamports(accounts, v, n)
          + (if i < n then At(accounts', StakeKey(v, i)).lamports - At(accounts, StakeKey(v, i)).lamports else 0)
  {
    if n > 0 {
      OneDiffers(accounts, accounts', v, i, n - 1);
      assert StakeKey(v, n - 1) != StakeKey(v, i) ==>
               At(accounts', StakeKey(v, n - 1)) == At(accounts, StakeKey(v, n - 1));
    }
  }

  lemma {:induction false} SweepLoopContents(w: Sweep, v: Pubkey, i: u32, n: u32, keys: seq<Address>)
    requires i <= n && w.count <= i && SweepLoop(w, v, i, n, keys).Ok?
    ensures SweptFrom(w, SweepLoop(w, v, i, n, keys).value, v, i, n)
    decreases n - i
  {
    hide SweepOne, SweptTo;
    if i < n {
      var w1 := SweepOne(w, v, i, keys[0]).value;
      assert w1.count <= i + 1 by { SweepOneContents(w, v, i, keys[0]); }
      SweepLoopContents(w1, v, i + 1, n, keys[1..]);
      SweepNext(w, w1, SweepLoop(w, v, i, n, keys).value, v, i, n, keys[0]);
    }
  }

  // ---- the whole list

  /** Every account of a validator the keys name, as far as counted, is swept; no other
      account is touched. */
  ghost predicate ListSwept(list: seq<ValidatorStakeInfo>, accounts: Accounts, accounts': Accounts,
                            keys: seq<Address>) {
    forall a: StakeKey :: if Wallet(a.validator) in keys && a.index < CountOf(list, a.validator)
                then SweptTo(At(accounts, a), At(accounts', a))
                else At(accounts', a) == At(accounts, a)
  }

  /** The new count of a record: one past an account that was live, or nothing; no account
      given up is live now. */
  ghost predicate Trimmed(r: ValidatorStakeInfo, r': ValidatorStakeInfo, accounts: Accounts, accounts': Accounts) {
    && r'.validator == r.validator && r'.stakeCount <= r.stakeCount
    && (r'.stakeCount == 0 || Live(At(accounts, StakeKey(r.validator, r'.stakeCount - 1))))
    && (forall j :: r'.stakeCount <= j < r.stakeCount ==> !Live(At(accounts', StakeKey(r.validator, j))))
  }

  /** The working list after some keys: records named are trimmed, others as they were. */
  ghost predicate ListTrimmed(list: seq<ValidatorStakeInfo>, list': seq<ValidatorStakeInfo>, accounts: Accounts,
                              accounts': Accounts, keys: seq<Address>)
  {
    && |list'| == |list|
    && (forall k :: 0 <= k < |list| ==>
          if Wallet(list[k].validator) in keys then Trimmed(list[k], list'[k], accounts, accounts')
          else list'[k] == list[k])
  }

  lemma {:induction false} RefreshOneContents(w: ListWork, k: nat, keys: seq<Address>, epoch: u64)
    requires k < |w.list| && RefreshOne(w, k, keys, epoch).Ok?
    ensures var w1 := RefreshOne(w, k, keys, epoch).value;
            var v, n := w.list[k].validator, w.list[k].stakeCount;
            && AllSwept(w.accounts, w1.accounts, v, 0, n)
            && w1.reserve + Lamports(w1.accounts, v, n) == w.reserve + Lamports(w.accounts, v, n)
            && w1.list == w.list[k := w1.list[k]]
            && Trimmed(w.list[k], w1.list[k], w.accounts, w1.accounts)
            && w1.list[k].balance == Lamports(w1.accounts, v, n) % U64_LIMIT && w1.list[k].lastUpdateEpoch == epoch
  {
    hide SweptTo;
    var v, n := w.list[k].validator, w.list[k].stakeCount;
    var start, w1 := Sweep(w.accounts, w.reserve, 0, 0), RefreshOne(w, k, keys, epoch).value;
    SweepLoopContents(start, v, 0, n, keys);
    forall j | w1.list[k].stakeCount <= j < n ensures !Live(At(w1.accounts, StakeKey(v, j))) {
      assert !Live(At(w.accounts, StakeKey(v, j)));
      NotLive(At(w.accounts, StakeKey(v, j)), At(w1.accounts, StakeKey(v, j)));
    }
  }

  lemma {:induction false} NotLive(acc: Account, acc': Account)
    requires SweptTo(acc, acc') && !Live(acc)
    ensures !Live(acc')
  {
  }

  lemma {:induction false} StakeKeysFirst(w: Sweep, v: Pubkey, i: u32, n: u32, keys: seq<Address>)
    requires i <= n && SweepLoop(w, v, i, n, keys).Ok?
    ensures n - i <= |keys| && forall j :: 0 <= j < n - i ==> keys[j].Pda?
    decreases n - i
  {
    if i < n {
      StakeKeysFirst(SweepOne(w, v, i, keys[0]).value, v, i + 1, n, keys[1..]);
      assert forall j :: 1 <= j < n - i ==> keys[j] == keys[1..][j - 1];
    }
  }

  /** Which validators are named: the first key's, and those named after its accounts. */
  lemma {:induction false} NamedIn(keys: seq<Address>, n: nat, v: Pubkey)
    requires 1 + n <= |keys| && keys[0].Wallet? && (forall j :: 0 <= j < n ==> keys[1..][j].Pda?)
    ensures Wallet(v) in keys <==> keys[0].key == v || Wallet(v) in keys[1 + n..]
  {
    if Wallet(v) in keys && keys[0].key != v {
      var i :| 0 <= i < |keys| && keys[i] == Wallet(v);
      assert forall j :: 1 <= j < 1 + n ==> keys[j] == keys[1..][j - 1];
      assert keys[1 + n..][i - (1 + n)] == keys[i];
    }
  }

  lemma {:induction false} RefreshLoopContents(w: ListWork, keys: seq<Address>, epoch: u64)
    requires Distinct(w.list) && RefreshLoop(w, keys, epoch).Ok?
    ensures var w' := RefreshLoop(w, keys, epoch).value;
            && ListSwept(w.list, w.accounts, w'.accounts, keys)
            && ListTrimmed(w.list, w'.list, w.accounts, w'.accounts, keys)
    decreases |keys|
  {
    hide RefreshOne, ListSwept, ListTrimmed;
    if keys == [] {
      NothingSwept(w);
    } else {
      var k := FindVote(w.list, keys[0]).value;
      var n := w.list[k].stakeCount;
      var w1 := RefreshOne(w, k, keys[1..], epoch).value;
      RefreshOneContents(w, k, keys[1..], epoch);
      CountOfReplaced(w.list, k, w1.list[k], w.list[k].validator);
      RefreshLoopContents(w1, keys[1 + n..], epoch);
      RefreshSteps(w, w1, RefreshLoop(w, keys, epoch).value, k, keys, epoch);
    }
  }

  lemma {:induction false} NothingSwept(w: ListWork)
    ensures ListSwept(w.list, w.accounts, w.accounts, []) && ListTrimmed(w.list, w.list, w.accounts, w.accounts, [])
  {
  }

  lemma {:induction false} RefreshSteps(w: ListWork, w1: ListWork, w': ListWork, k: nat, keys: seq<Address>, epoch: u64)
    requires Distinct(w.list) && keys != [] && FindVote(w.list, keys[0]) == Some(k)
    requires RefreshOne(w, k, keys[1..], epoch) == Ok(w1) && 1 + w.list[k].stakeCount <= |keys|
    requires var rest := keys[1 + w.list[k].stakeCount..];
             && ListSwept(w1.list, w1.accounts, w'.accounts, rest)
             && ListTrimmed(w1.list, w'.list, w1.accounts, w'.accounts, rest)
    ensures ListSwept(w.list, w.accounts, w'.accounts, keys)
    ensures ListTrimmed(w.list, w'.list, w.accounts, w'.accounts, keys)
  {
    var v, n := w.list[k].validator, w.list[k].stakeCount;
    StakeKeysFirst(Sweep(w.accounts, w.reserve, 0, 0), v, 0, n, keys[1..]);
    hide RefreshOne, SweptTo;
    RefreshOneContents(w, k, keys[1..], epoch);
    forall a: StakeKey ensures if Wallet(a.validator) in keys && a.index < CountOf(w.list, a.validator)
                     then SweptTo(At(w.accounts, a), At(w'.accounts, a))
                     else At(w'.accounts, a) == At(w.accounts, a)
    {
      NamedIn(keys, n, a.validator);
      CountOfListed(w.list, k);
      CountOfReplaced(w.list, k, w1.list[k], a.validator);
      if a.validator == v && a.index < n {
        SweptTwice(At(w.accounts, a), At(w1.accounts, a), At(w'.accounts, a));
      }
    }
    forall j | 0 <= j < |w.list|
      ensures if Wallet(w.list[j].validator) in keys then Trimmed(w.list[j], w'.list[j], w.accounts, w'.accounts)
              else w'.list[j] == w.list[j]
    {
      NamedIn(keys, n, w.list[j].validator);
      TrimmedOn(w, w1, w', k, j, keys[1 + n..]);
    }
  }

  lemma {:induction false} TrimmedOn(w: ListWork, w1: ListWork, w': ListWork, k: nat, j: nat, rest: seq<Address>)
    requires Distinct(w.list) && k < |w.list| == |w1.list| && j < |w.list| && w1.list == w.list[k := w1.list[k]]
    requires Trimmed(w.list[k], w1.list[k], w.accounts, w1.accounts)
    requires AllSwept(w.accounts, w1.accounts, w.list[k].validator, 0, w.list[k].stakeCount)
    requires ListSwept(w1.list, w1.accounts, w'.accounts, rest)
    requires ListTrimmed(w1.list, w'.list, w1.accounts, w'.accounts, rest)
    ensures if w.list[j].validator == w.list[k].validator || Wallet(w.list[j].validator) in rest
            then Trimmed(w.list[j], w'.list[j], w.accounts, w'.accounts) else w'.list[j] == w.list[j]
  {
    hide SweptTo;
    var v := w.list[j].validator;
    if j == k {
      CountOfReplaced(w.list, k, w1.list[k], v);
      var c := w'.list[k].stakeCount;
      if c > 0 {
        var a := StakeKey(v, c - 1);
        if Live(At(w1.accounts, a)) {
          LiveBefore(At(w.accounts, a), At(w1.accounts, a));
        }
      }
      forall i | c <= i < w.list[k].stakeCount ensures !Live(At(w'.accounts, StakeKey(v, i))) {
        if i >= w1.list[k].stakeCount {
          assert At(w'.accounts, StakeKey(v, i)) == At(w1.accounts, StakeKey(v, i));
        }
      }
    } else if Wallet(v) in rest {
      assert w1.list[j] == w.list[j] && v != w.list[k].validator;
      assert forall i: nat :: At(w1.accounts, StakeKey(v, i)) == At(w.accounts, StakeKey(v, i));
    }
  }

  lemma {:induction false} LiveBefore(acc: Account, acc': Account)
    requires (SweptTo(acc, acc') || acc' == acc) && Live(acc')
    ensures Live(acc)
  {
  }

  /** What a committed list update does: every counted account of a named validator is
      swept, no other account is touched, and records are trimmed to the accounts still there;
      pool, queue, tokens and all else are as before. */
  lemma {:induction false} UpdateListExactly(s: State, keys: seq<Address>)
    requires Distinct(s.validators) && UpdateListBalance(s, keys).Ok?
    ensures var s' := UpdateListBalance(s, keys).value;
            && ListSwept(s.validators, s.bank.accounts, s'.bank.accounts, keys)
            && ListTrimmed(s.validators, s'.validators, s.bank.accounts, s'.bank.accounts, keys)
            && s' == s.(validators := s'.validators,
                        bank := s.bank.(accounts := s'.bank.accounts, reserve := s'.bank.reserve))
  {
    hide RefreshLoop, ListSwept, ListTrimmed;
    RefreshLoopContents(ListWork(s.validators, s.bank.accounts, s.bank.reserve), keys, s.bank.epoch);
  }
}
