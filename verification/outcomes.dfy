/** Exactly when the client's batches commit on-chain, and what they leave behind. */
module PlanOutcomes {
  import opened Machine
  import opened Data
  import opened Ledger
  import opened Staking
  import opened Planner
  import opened PlannerProofs
  import Contents = StakingContents

  // ---- delegations

  /** The entry's account can take its amount: a stake account that may be delegated again
      is topped up, an empty address gets a new one if the amount reaches the program's
      minimum. */
  predicate Takes(accounts: Accounts, p: PlannedDelegation) {
    var acc := At(accounts, StakeKey(p.address, p.stakeIndex));
    && (acc.System? ==> acc.lamports == 0 && p.amount >= MIN_STAKE_ACCOUNT_BALANCE)
    && (acc.Stake? ==> Delegable(acc.state))
    && acc.lamports + p.amount < U64_LIMIT
  }

  /** With `spent` gone, the rest of the plan is within `available` and every account takes its part. */
  predicate Fundable(spent: nat, available: nat, accounts: Accounts, plan: seq<PlannedDelegation>) {
    && spent + AmountSum(plan) <= available
    && (forall i :: 0 <= i < |plan| ==> Takes(accounts, plan[i]))
  }

  lemma {:induction false} AmountFirst(p: PlannedDelegation, plan: seq<PlannedDelegation>)
    ensures AmountSum([p] + plan) == p.amount + AmountSum(plan)
    decreases |plan|
  {
    var all := [p] + plan;
    if plan == [] {
      assert all[..0] == [] && all[0] == p;
    } else {
      assert all[..|all| - 1] == [p] + plan[..|plan| - 1];
      AmountFirst(p, plan[..|plan| - 1]);
    }
  }

  ghost predicate Purse(w: Work, available: u64) {
    w.total <= available <= w.reserve + w.total < U64_LIMIT
  }

  /** One entry commits exactly when it fits, and leaves the rest as fundable as before. */
  lemma {:induction false} FundOne(w: Work, p: PlannedDelegation, plan: seq<PlannedDelegation>, available: u64,
                                   rent: Rent)
    requires Plannable(w.list, [p] + plan) && Purse(w, available)
    ensures var r := DelegateOne(w, DelegateReserveInstruction(p.amount, p.stakeIndex), Wallet(p.address),
                                 Pda(StakeKey(p.address, p.stakeIndex)), available, rent);
            && (Fundable(w.total, available, w.accounts, [p] + plan) <==>
                  r.Ok? && Fundable(r.value.total, available, r.value.accounts, plan))
            && (r.Ok? ==> Purse(r.value, available) && r.value.reserve + r.value.total == w.reserve + w.total)
  {
    hide AmountSum;
    var r := DelegateOne(w, DelegateReserveInstruction(p.amount, p.stakeIndex), Wallet(p.address),
                         Pda(StakeKey(p.address, p.stakeIndex)), available, rent);
    var all := [p] + plan;
    assert all[0] == p;
    AmountFirst(p, plan);
    assert r.Ok? <==> w.total + p.amount <= available && Takes(w.accounts, p);
    if r.Ok? {
      forall i | 0 <= i < |plan|
        ensures all[i + 1] == plan[i] && Takes(r.value.accounts, plan[i]) == Takes(w.accounts, plan[i])
      {
        assert all[i + 1].address != all[0].address;
      }
      assert forall i :: 0 < i < |all| ==> all[i] == plan[i - 1];
    }
  }

  lemma {:induction false} FundBatch(w: Work, plan: seq<PlannedDelegation>, later: seq<PlannedDelegation>,
                                     available: u64, rent: Rent)
    requires Plannable(w.list, plan + later) && Purse(w, available)
    ensures var r := DelegateLoop(w, Instructions(plan), Keys(plan), available, rent);
            && (Fundable(w.total, available, w.accounts, plan + later) <==>
                  r.Ok? && Fundable(r.value.total, available, r.value.accounts, later))
            && (r.Ok? ==> Purse(r.value, available) && r.value.reserve + r.value.total == w.reserve + w.total)
    decreases |plan|
  {
    hide Fundable, DelegateOne, Plannable;
    if plan == [] {
      assert [] + later == later;
    } else {
      assert plan + later == [plan[0]] + (plan[1..] + later);
      DelegateOneAccepts(w, plan[0], plan[1..] + later, available, rent);
      FundOne(w, plan[0], plan[1..] + later, available, rent);
      assert Instructions(plan)[1..] == Instructions(plan[1..]);
      assert Keys(plan)[2..] == Keys(plan[1..]);
      var r := DelegateOne(w, Instructions(plan)[0], Keys(plan)[0], Keys(plan)[1], available, rent);
      if r.Ok? {
        FundBatch(r.value, plan[1..], later, available, rent);
      }
    }
  }

  /** The transactions of a plan all commit exactly when the whole plan is within what the
      reserve can spend and every account takes its part. */
  lemma {:induction false} DelegationsCommit(s: State, plan: seq<PlannedDelegation>, rent: Rent)
    requires Plannable(s.validators, plan)
    ensures SendDelegations(s, plan, rent).Ok? <==> Fundable(0, Spendable(s, rent), s.bank.accounts, plan)
    decreases |plan|
  {
    hide Plannable, MinReserve, DelegateLoop, Takes;
    if plan != [] {
      var n := Min(4, |plan|);
      var available := Spendable(s, rent);
      assert plan[..n] + plan[n..] == plan;
      BatchAccepted(Start(s), plan[..n], plan[n..], available, rent);
      FundBatch(Start(s), plan[..n], plan[n..], available, rent);
      var r := DelegateLoop(Start(s), Instructions(plan[..n]), Keys(plan[..n]), available, rent);
      if r.Ok? {
        PlannableTail(s.validators, plan, n);
        CommitPlannable(s, r.value, plan[n..]);
        DelegationsCommit(Commit(s, r.value), plan[n..], rent);
        assert Spendable(Commit(s, r.value), rent) == available - r.value.total;
      }
    }
  }

  /** What a plan leaves: each entry's account holds its amount on top of what it held, all
      of it delegated, and no other account has changed. */
  ghost predicate Delivered(accounts: Accounts, accounts': Accounts, plan: seq<PlannedDelegation>, rent: Rent) {
    && (forall i :: 0 <= i < |plan| ==>
          var a := StakeKey(plan[i].address, plan[i].stakeIndex);
          At(accounts', a).lamports == At(accounts, a).lamports + plan[i].amount
          && Contents.WhollyDelegated(At(accounts', a), rent))
    && (forall a :: (forall i :: 0 <= i < |plan| ==> a != StakeKey(plan[i].address, plan[i].stakeIndex)) ==>
          At(accounts', a) == At(accounts, a))
  }

  lemma {:induction false} DeliveredFirst(accounts: Accounts, mid: Accounts, accounts': Accounts, p: PlannedDelegation,
                                          plan: seq<PlannedDelegation>, rent: Rent)
    requires forall i :: 0 <= i < |plan| ==> plan[i].address != p.address
    requires var a := StakeKey(p.address, p.stakeIndex);
             && At(mid, a).lamports == At(accounts, a).lamports + p.amount && Contents.WhollyDelegated(At(mid, a), rent)
             && (forall k :: k != a ==> At(mid, k) == At(accounts, k))
    requires Delivered(mid, accounts', plan, rent)
    ensures Delivered(accounts, accounts', [p] + plan, rent)
  {
    hide Contents.WhollyDelegated;
    var all, key := [p] + plan, StakeKey(p.address, p.stakeIndex);
    assert At(accounts', key) == At(mid, key);
    forall i | 0 <= i < |all|
      ensures var a := StakeKey(all[i].address, all[i].stakeIndex);
              At(accounts', a).lamports == At(accounts, a).lamports + all[i].amount
              && Contents.WhollyDelegated(At(accounts', a), rent)
    {
      assert i > 0 ==> all[i] == plan[i - 1];
    }
    forall a | forall i :: 0 <= i < |all| ==> a != StakeKey(all[i].address, all[i].stakeIndex)
      ensures At(accounts', a) == At(accounts, a)
    {
      assert all[0] == p;
      forall i | 0 <= i < |plan| ensures a != StakeKey(plan[i].address, plan[i].stakeIndex) {
        assert all[i + 1] == plan[i];
      }
    }
  }

  lemma {:induction false} BatchDelivers(w: Work, plan: seq<PlannedDelegation>, later: seq<PlannedDelegation>,
                                         available: u64, rent: Rent, last: Accounts)
    requires Plannable(w.list, plan + later)
    requires DelegateLoop(w, Instructions(plan), Keys(plan), available, rent).Ok?
    requires var w' := DelegateLoop(w, Instructions(plan), Keys(plan), available, rent).value;
             Delivered(w'.accounts, last, later, rent)
    ensures Delivered(w.accounts, last, plan + later, rent)
    decreases |plan|
  {
    hide DelegateOne, Delivered;
    if plan == [] {
      assert [] + later == later;
    } else {
      var rest := plan[1..] + later;
      assert plan + later == [plan[0]] + rest;
      DelegateOneAccepts(w, plan[0], rest, available, rent);
      assert Instructions(plan)[1..] == Instructions(plan[1..]);
      assert Keys(plan)[2..] == Keys(plan[1..]);
      var e, keys := Instructions(plan)[0], Keys(plan);
      var w1 := DelegateOne(w, e, keys[0], keys[1], available, rent).value;
      BatchDelivers(w1, plan[1..], later, available, rent, last);
      forall a ensures if a == StakeKey(plan[0].address, plan[0].stakeIndex)
                       then At(w1.accounts, a).lamports == At(w.accounts, a).lamports + plan[0].amount
                            && Contents.WhollyDelegated(At(w1.accounts, a), rent)
                       else At(w1.accounts, a) == At(w.accounts, a)
      {
        Contents.DelegateOneContents(w, e, keys[0], keys[1], available, rent, a);
      }
      forall i | 0 <= i < |rest| ensures rest[i].address != plan[0].address {
        assert (plan + later)[i + 1] == rest[i] && (plan + later)[0] == plan[0];
      }
      DeliveredFirst(w.accounts, w1.accounts, last, plan[0], rest, rent);
    }
  }

  /** A plan that goes through is delivered in full. */
  lemma {:induction false} DelegationsDeliver(s: State, plan: seq<PlannedDelegation>, rent: Rent)
    requires Plannable(s.validators, plan) && SendDelegations(s, plan, rent).Ok?
    ensures Delivered(s.bank.accounts, SendDelegations(s, plan, rent).value.bank.accounts, plan, rent)
    decreases |plan|
  {
    hide Plannable, DelegateLoop, Spendable;
    if plan == [] {
      hide Contents.WhollyDelegated;
    } else {
      hide Delivered;
      var n, available := Min(4, |plan|), Spendable(s, rent);
      var last := SendDelegations(s, plan, rent).value.bank.accounts;
      assert plan[..n] + plan[n..] == plan;
      BatchAccepted(Start(s), plan[..n], plan[n..], available, rent);
      var w := DelegateLoop(Start(s), Instructions(plan[..n]), Keys(plan[..n]), available, rent).value;
      PlannableTail(s.validators, plan, n);
      CommitPlannable(s, w, plan[n..]);
      DelegationsDeliver(Commit(s, w), plan[n..], rent);
      BatchDelivers(Start(s), plan[..n], plan[n..], available, rent, last);
    }
  }

  /** So for every plan the client makes of the list as it stands: it is refused only over
      what the accounts hold, and it goes through exactly when that suffices. */
  lemma {:induction false} DelegateReserveBatchAccepted(s: State, validators: seq<ValidatorView>,
                                                        plan: seq<PlannedDelegation>, picks: seq<nat>, target: nat,
                                                        n: nat, rent: Rent)
    requires Snapshot(s.validators, validators) && PlanOk(plan, picks, validators, target, n, 0)
    ensures SendDelegations(s, plan, rent).Ok? <==>
              && AmountSum(plan) <= Spendable(s, rent)
              && (forall i :: 0 <= i < |plan| ==> Takes(s.bank.accounts, plan[i]))
    ensures SendDelegations(s, plan, rent).Err? ==> AccountError(SendDelegations(s, plan, rent).error)
    ensures SendDelegations(s, plan, rent).Ok? ==>
              Delivered(s.bank.accounts, SendDelegations(s, plan, rent).value.bank.accounts, plan, rent)
  {
    hide Delivered;
    PlanIsPlannable(s.validators, validators, plan, picks, target, n);
    DelegationsCommit(s, plan, rent);
    DelegationsAccepted(s, plan, rent);
    if SendDelegations(s, plan, rent).Ok? {
      DelegationsDeliver(s, plan, rent);
    }
  }

  // ---- merges

  function StakeIn(acc: Account): u64 {
    if IsDelegated(acc) then acc.state.stake else 0
  }

  function LamportsIn(acc: Account): u64 {
    acc.lamports
  }

  function Main(p: StakePair): StakeKey {
    StakeKey(p.validator, p.mainIndex)
  }

  function Additional(p: StakePair): StakeKey {
    StakeKey(p.validator, p.additionalIndex)
  }

  /** The pair is skipped over different credits, or the stake program takes `b` into `a`. */
  predicate Joins(a: Account, b: Account) {
    && a.Stake? && b.Stake?
    && ( || CreditsDiffer(a.state, b.state)
         || (a.state.Delegated? && a.state.joinable && b.state.Delegated? && b.state.joinable)
         || (a.state.Delegated? && a.state.joinable && b.state.Initialized?)
         || (a.state.Initialized? && b.state.Initialized?))
  }

  predicate Absorbs(a: Account, b: Account) {
    Joins(a, b) && !CreditsDiffer(a.state, b.state)
  }

  /** What account `a` at `m` absorbs in the course of the plan, measured by `f`. */
  function Absorbed(f: Account -> u64, a: Account, accounts: Accounts, plan: seq<StakePair>, m: StakeKey): nat
    decreases |plan|
  {
    if plan == [] then 0
    else
      var b := At(accounts, Additional(plan[0]));
      (if Main(plan[0]) == m && Absorbs(a, b) then f(b) else 0) + Absorbed(f, a, accounts, plan[1..], m)
  }

  /** What it holds at the end. */
  function Claim(f: Account -> u64, accounts: Accounts, plan: seq<StakePair>, m: StakeKey): nat {
    f(At(accounts, m)) + Absorbed(f, At(accounts, m), accounts, plan, m)
  }

  /** Both accounts of every pair are stakes of joinable states, and what each main account
      ends up with fits in 64 bits. */
  ghost predicate Fits(accounts: Accounts, plan: seq<StakePair>) {
    forall i :: 0 <= i < |plan| ==>
      && Joins(At(accounts, Main(plan[i])), At(accounts, Additional(plan[i])))
      && Claim(LamportsIn, accounts, plan, Main(plan[i])) < U64_LIMIT
      && Claim(StakeIn, accounts, plan, Main(plan[i])) < U64_LIMIT
  }

  /** One main account a validator. */
  ghost predicate OneMain(plan: seq<StakePair>) {
    forall i, j :: 0 <= i < |plan| && 0 <= j < |plan| && plan[i].validator == plan[j].validator ==>
      plan[i].mainIndex == plan[j].mainIndex
  }

  /** No additional account is named twice or is a main account. */
  ghost predicate Apart(plan: seq<StakePair>) {
    && (forall i, j :: 0 <= i < |plan| && 0 <= j < |plan| ==> Main(plan[i]) != Additional(plan[j]))
    && (forall i, j :: 0 <= i < j < |plan| ==> Additional(plan[i]) != Additional(plan[j]))
  }

  lemma {:induction false} MergeableApart(list: seq<ValidatorStakeInfo>, plan: seq<StakePair>)
    requires Mergeable(list, plan) && OneMain(plan)
    ensures Apart(plan)
  {
    hide Find, CountOf;
  }

  /** The same kind of account as far as absorbing others goes. */
  predicate Alike(a: Account, a': Account) {
    && a.Stake? && a'.Stake?
    && (a.state.Initialized? <==> a'.state.Initialized?)
    && (a.state.Delegated? <==> a'.state.Delegated?)
    && (a.state.Delegated? ==>
          a.state.creditsObserved == a'.state.creditsObserved && a.state.joinable == a'.state.joinable)
  }

  lemma {:induction false} AbsorbedKept(f: Account -> u64, a: Account, a': Account, accounts: Accounts,
                                        accounts': Accounts, plan: seq<StakePair>, m: StakeKey)
    requires Alike(a, a') || a == a'
    requires forall i :: 0 <= i < |plan| ==> At(accounts', Additional(plan[i])) == At(accounts, Additional(plan[i]))
    ensures Absorbed(f, a, accounts, plan, m) == Absorbed(f, a', accounts', plan, m)
    decreases |plan|
  {
    if plan != [] {
      assert At(accounts', Additional(plan[0])) == At(accounts, Additional(plan[0]));
      AbsorbedKept(f, a, a', accounts, accounts', plan[1..], m);
    }
  }

  lemma {:induction false} AbsorbedNothing(f: Account -> u64, a: Account, accounts: Accounts, plan: seq<StakePair>,
                                           m: StakeKey)
    requires forall i :: 0 <= i < |plan| ==> Main(plan[i]) != m
    ensures Absorbed(f, a, accounts, plan, m) == 0
    decreases |plan|
  {
    if plan != [] {
      AbsorbedNothing(f, a, accounts, plan[1..], m);
    }
  }

  lemma {:induction false} AbsorbedFirst(f: Account -> u64, a: Account, accounts: Accounts, p: StakePair,
                                         plan: seq<StakePair>, m: StakeKey)
    ensures Absorbed(f, a, accounts, [p] + plan, m)
         == (if Main(p) == m && Absorbs(a, At(accounts, Additional(p))) then f(At(accounts, Additional(p))) else 0)
            + Absorbed(f, a, accounts, plan, m)
  {
    assert ([p] + plan)[1..] == plan;
  }

  /** What merging the pair `p` makes of the accounts. */
  ghost predicate JoinedBy(accounts: Accounts, accounts': Accounts, p: StakePair) {
    var a, b := At(accounts, Main(p)), At(accounts, Additional(p));
    && Joins(a, b)
    && if CreditsDiffer(a.state, b.state) then accounts' == accounts
       else
         && Alike(a, At(accounts', Main(p)))
         && LamportsIn(At(accounts', Main(p))) == LamportsIn(a) + LamportsIn(b)
         && StakeIn(At(accounts', Main(p))) == StakeIn(a) + StakeIn(b)
         && At(accounts', Additional(p)) == System(0)
         && (forall k :: k != Main(p) && k != Additional(p) ==> At(accounts', k) == At(accounts, k))
  }

  /** A merge moves what the first pair was to bring from the claim's future to its past. */
  lemma {:induction false} ClaimStep(f: Account -> u64, accounts: Accounts, accounts': Accounts, p: StakePair,
                                     plan: seq<StakePair>, m: StakeKey)
    requires f == LamportsIn || f == StakeIn
    requires Apart([p] + plan) && JoinedBy(accounts, accounts', p) && m != Additional(p)
    ensures Claim(f, accounts, [p] + plan, m) == Claim(f, accounts', plan, m)
  {
    var all := [p] + plan;
    AbsorbedFirst(f, At(accounts, m), accounts, p, plan, m);
    forall i | 0 <= i < |plan|
      ensures At(accounts', Additional(plan[i])) == At(accounts, Additional(plan[i]))
    {
      assert all[0] == p && all[i + 1] == plan[i];
    }
    AbsorbedKept(f, At(accounts, m), At(accounts', m), accounts, accounts', plan, m);
  }

  lemma {:induction false} FitsStep(accounts: Accounts, accounts': Accounts, p: StakePair, plan: seq<StakePair>)
    requires Apart([p] + plan) && JoinedBy(accounts, accounts', p)
    ensures Fits(accounts, [p] + plan) <==> Fits(accounts', plan)
  {
    hide Claim, Absorbed;
    var all := [p] + plan;
    assert all[0] == p;
    assert Main(all[0]) != Additional(all[0]);
    forall i | 0 <= i < |plan|
      ensures all[i + 1] == plan[i]
      ensures Joins(At(accounts, Main(plan[i])), At(accounts, Additional(plan[i])))
           == Joins(At(accounts', Main(plan[i])), At(accounts', Additional(plan[i])))
      ensures Claim(LamportsIn, accounts, all, Main(plan[i])) == Claim(LamportsIn, accounts', plan, Main(plan[i]))
      ensures Claim(StakeIn, accounts, all, Main(plan[i])) == Claim(StakeIn, accounts', plan, Main(plan[i]))
    {
      assert all[i + 1] == plan[i];
      assert Main(all[i + 1]) != Additional(all[0]) && Main(all[0]) != Additional(all[i + 1]);
      ClaimStep(LamportsIn, accounts, accounts', p, plan, Main(plan[i]));
      ClaimStep(StakeIn, accounts, accounts', p, plan, Main(plan[i]));
    }
    FirstClaim(LamportsIn, accounts, accounts', p, plan);
    FirstClaim(StakeIn, accounts, accounts', p, plan);
    assert forall i :: 0 < i < |all| ==> all[i] == plan[i - 1];
  }

  /** The first pair's claim is a later pair's too, or is met by now. */
  lemma {:induction false} FirstClaim(f: Account -> u64, accounts: Accounts, accounts': Accounts, p: StakePair,
                                      plan: seq<StakePair>)
    requires f == LamportsIn || f == StakeIn
    requires Apart([p] + plan) && JoinedBy(accounts, accounts', p)
    ensures Claim(f, accounts, [p] + plan, Main(p)) < U64_LIMIT
         || exists i :: 0 <= i < |plan| && Main(plan[i]) == Main(p)
  {
    assert ([p] + plan)[0] == p;
    ClaimStep(f, accounts, accounts', p, plan, Main(p));
    if forall i :: 0 <= i < |plan| ==> Main(plan[i]) != Main(p) {
      AbsorbedNothing(f, At(accounts', Main(p)), accounts', plan, Main(p));
    }
  }

  /** One pair commits exactly when it joins and the sums fit. */
  lemma {:induction false} MergeOneOutcome(w: Work, p: StakePair, plan: seq<StakePair>)
    requires Mergeable(w.list, [p] + plan)
    ensures var r := MergeOne(w, MergeStakesInstruction(p.validator, p.mainIndex, p.additionalIndex),
                              Pda(Main(p)), Pda(Additional(p)));
            var a, b := At(w.accounts, Main(p)), At(w.accounts, Additional(p));
            && (r.Ok? <==> Joins(a, b) && (CreditsDiffer(a.state, b.state)
                             || (LamportsIn(a) + LamportsIn(b) < U64_LIMIT && StakeIn(a) + StakeIn(b) < U64_LIMIT)))
            && (r.Ok? ==> JoinedBy(w.accounts, r.value.accounts, p))
  {
    assert ([p] + plan)[0] == p;
  }

  lemma {:induction false} FitOne(w: Work, p: StakePair, plan: seq<StakePair>)
    requires Mergeable(w.list, [p] + plan) && Apart([p] + plan)
    ensures var r := MergeOne(w, MergeStakesInstruction(p.validator, p.mainIndex, p.additionalIndex),
                              Pda(Main(p)), Pda(Additional(p)));
            Fits(w.accounts, [p] + plan) <==> r.Ok? && Fits(r.value.accounts, plan)
  {
    hide MergeOne, Mergeable, Apart, JoinedBy;
    var r := MergeOne(w, MergeStakesInstruction(p.validator, p.mainIndex, p.additionalIndex),
                      Pda(Main(p)), Pda(Additional(p)));
    MergeOneOutcome(w, p, plan);
    if r.Ok? {
      FitsStep(w.accounts, r.value.accounts, p, plan);
    } else {
      var all := [p] + plan;
      assert all[0] == p;
      var a := At(w.accounts, Main(p));
      AbsorbedFirst(LamportsIn, a, w.accounts, p, plan, Main(p));
      AbsorbedFirst(StakeIn, a, w.accounts, p, plan, Main(p));
      assert !Joins(a, At(w.accounts, Additional(p)))
          || Claim(LamportsIn, w.accounts, all, Main(p)) >= U64_LIMIT
          || Claim(StakeIn, w.accounts, all, Main(p)) >= U64_LIMIT;
    }
  }

  lemma {:induction false} FitBatch(w: Work, plan: seq<StakePair>, later: seq<StakePair>)
    requires Mergeable(w.list, plan + later) && Apart(plan + later)
    ensures var r := MergeLoop(w, MergeInstructions(plan), MergeKeys(plan));
            Fits(w.accounts, plan + later) <==> r.Ok? && Fits(r.value.accounts, later)
    decreases |plan|
  {
    hide Fits, MergeOne, Mergeable;
    if plan == [] {
      assert [] + later == later;
    } else {
      var rest := plan[1..] + later;
      assert plan + later == [plan[0]] + rest;
      MergeOneAccepts(w, plan[0], rest);
      FitOne(w, plan[0], rest);
      ApartTail(plan[0], rest);
      assert MergeInstructions(plan)[1..] == MergeInstructions(plan[1..]);
      assert MergeKeys(plan)[2..] == MergeKeys(plan[1..]);
      var r := MergeOne(w, MergeInstructions(plan)[0], MergeKeys(plan)[0], MergeKeys(plan)[1]);
      if r.Ok? {
        FitBatch(r.value, plan[1..], later);
      }
    }
  }

  lemma {:induction false} ApartTail(p: StakePair, plan: seq<StakePair>)
    requires Apart([p] + plan)
    ensures Apart(plan)
  {
    var all := [p] + plan;
    forall i, j | 0 <= i < |plan| && 0 <= j < |plan|
      ensures Main(plan[i]) != Additional(plan[j]) && (i < j ==> Additional(plan[i]) != Additional(plan[j]))
    {
      assert all[i + 1] == plan[i] && all[j + 1] == plan[j];
    }
  }

  /** The transactions of a merge plan all commit exactly when it fits. */
  lemma {:induction false} MergesCommit(s: State, plan: seq<StakePair>)
    requires Mergeable(s.validators, plan) && Apart(plan)
    ensures SendMerges(s, plan).Ok? <==> Fits(s.bank.accounts, plan)
    decreases |plan|
  {
    hide Fits, MergeLoop;
    if plan != [] {
      var n := Min(4, |plan|);
      assert plan[..n] + plan[n..] == plan;
      MergeBatchAccepted(Start(s), plan[..n], plan[n..]);
      FitBatch(Start(s), plan[..n], plan[n..]);
      var r := MergeLoop(Start(s), MergeInstructions(plan[..n]), MergeKeys(plan[..n]));
      if r.Ok? {
        assert Mergeable(s.validators, plan[n..]);
        MergesCommit(Commit(s, r.value), plan[n..]);
      }
    } else {
      assert Fits(s.bank.accounts, []) by { FitsNothing(s.bank.accounts); }
    }
  }

  /** Each main account holds what it had and what it absorbed. */
  ghost predicate MainsJoined(accounts: Accounts, accounts': Accounts, plan: seq<StakePair>) {
    forall i :: 0 <= i < |plan| ==>
      var m := Main(plan[i]);
      && LamportsIn(At(accounts', m)) == Claim(LamportsIn, accounts, plan, m)
      && StakeIn(At(accounts', m)) == Claim(StakeIn, accounts, plan, m)
  }

  /** An absorbed account is gone, a skipped one is as it was. */
  ghost predicate AdditionalsGone(accounts: Accounts, accounts': Accounts, plan: seq<StakePair>) {
    forall i :: 0 <= i < |plan| ==>
      var b := Additional(plan[i]);
      At(accounts', b) == if Absorbs(At(accounts, Main(plan[i])), At(accounts, b)) then System(0) else At(accounts, b)
  }

  ghost predicate OthersKept(accounts: Accounts, accounts': Accounts, plan: seq<StakePair>) {
    forall a :: (forall i :: 0 <= i < |plan| ==> a != Main(plan[i]) && a != Additional(plan[i])) ==>
      At(accounts', a) == At(accounts, a)
  }

  /** What a merge plan leaves. */
  ghost predicate Joined(accounts: Accounts, accounts': Accounts, plan: seq<StakePair>) {
    && MainsJoined(accounts, accounts', plan)
    && AdditionalsGone(accounts, accounts', plan)
    && OthersKept(accounts, accounts', plan)
  }

  /** After the first pair, its main account is met again later or has all it will get. */
  lemma {:induction false} FirstMain(f: Account -> u64, accounts: Accounts, mid: Accounts, accounts': Accounts,
                                     p: StakePair, plan: seq<StakePair>)
    requires f == LamportsIn || f == StakeIn
    requires Apart([p] + plan) && JoinedBy(accounts, mid, p) && Joined(mid, accounts', plan)
    ensures f(At(accounts', Main(p))) == Claim(f, accounts, [p] + plan, Main(p))
  {
    hide Claim, Absorbed, Absorbs, JoinedBy, AdditionalsGone;
    var all := [p] + plan;
    assert all[0] == p;
    assert Main(all[0]) != Additional(all[0]);
    ClaimStep(f, accounts, mid, p, plan, Main(p));
    if forall i :: 0 <= i < |plan| ==> Main(plan[i]) != Main(p) {
      AbsorbedNothing(f, At(mid, Main(p)), mid, plan, Main(p));
      assert Claim(f, mid, plan, Main(p)) == f(At(mid, Main(p))) by { NothingMore(f, mid, plan, Main(p)); }
      forall i | 0 <= i < |plan| ensures Main(p) != Main(plan[i]) && Main(p) != Additional(plan[i]) {
        assert all[i + 1] == plan[i];
      }
    }
  }

  lemma {:induction false} NothingMore(f: Account -> u64, accounts: Accounts, plan: seq<StakePair>, m: StakeKey)
    requires Absorbed(f, At(accounts, m), accounts, plan, m) == 0
    ensures Claim(f, accounts, plan, m) == f(At(accounts, m))
  {
  }

  lemma {:induction false} MainsFirst(accounts: Accounts, mid: Accounts, accounts': Accounts, p: StakePair,
                                      plan: seq<StakePair>)
    requires Apart([p] + plan) && JoinedBy(accounts, mid, p) && Joined(mid, accounts', plan)
    ensures MainsJoined(accounts, accounts', [p] + plan)
  {
    hide Claim, JoinedBy, AdditionalsGone, OthersKept;
    var all := [p] + plan;
    assert all[0] == p;
    FirstMain(LamportsIn, accounts, mid, accounts', p, plan);
    FirstMain(StakeIn, accounts, mid, accounts', p, plan);
    forall i | 0 < i < |all|
      ensures LamportsIn(At(accounts', Main(all[i]))) == Claim(LamportsIn, accounts, all, Main(all[i]))
      ensures StakeIn(At(accounts', Main(all[i]))) == Claim(StakeIn, accounts, all, Main(all[i]))
    {
      assert all[i] == plan[i - 1];
      assert Main(all[i]) != Additional(all[0]);
      ClaimStep(LamportsIn, accounts, mid, p, plan, Main(plan[i - 1]));
      ClaimStep(StakeIn, accounts, mid, p, plan, Main(plan[i - 1]));
    }
  }

  lemma {:induction false} AdditionalsFirst(accounts: Accounts, mid: Accounts, accounts': Accounts, p: StakePair,
                                            plan: seq<StakePair>)
    requires Apart([p] + plan) && JoinedBy(accounts, mid, p)
    requires AdditionalsGone(mid, accounts', plan) && OthersKept(mid, accounts', plan)
    ensures AdditionalsGone(accounts, accounts', [p] + plan) && OthersKept(accounts, accounts', [p] + plan)
  {
    hide StakeIn, LamportsIn;
    var all := [p] + plan;
    assert all[0] == p && Main(all[0]) != Additional(all[0]);
    assert forall i :: 0 < i < |all| ==> all[i] == plan[i - 1];
    forall i | 0 <= i < |plan| ensures Additional(p) != Main(plan[i]) && Additional(p) != Additional(plan[i]) {
      assert all[i + 1] == plan[i];
    }
    assert At(accounts', Additional(p)) == At(mid, Additional(p));
    forall i | 0 < i < |all|
      ensures var b := Additional(all[i]);
              At(accounts', b)
              == if Absorbs(At(accounts, Main(all[i])), At(accounts, b)) then System(0) else At(accounts, b)
    {
      assert all[i] == plan[i - 1];
      assert Additional(all[i]) != Additional(all[0]) && Main(all[0]) != Additional(all[i]);
      assert Main(all[i]) != Additional(all[0]);
    }
    forall a | forall i :: 0 <= i < |all| ==> a != Main(all[i]) && a != Additional(all[i])
      ensures At(accounts', a) == At(accounts, a)
    {
      forall i | 0 <= i < |plan| ensures a != Main(plan[i]) && a != Additional(plan[i]) {
        assert all[i + 1] == plan[i];
      }
    }
  }

  lemma {:induction false} JoinedFirst(accounts: Accounts, mid: Accounts, accounts': Accounts, p: StakePair,
                                       plan: seq<StakePair>)
    requires Apart([p] + plan) && JoinedBy(accounts, mid, p) && Joined(mid, accounts', plan)
    ensures Joined(accounts, accounts', [p] + plan)
  {
    hide Apart, JoinedBy, MainsJoined, AdditionalsGone, OthersKept;
    MainsFirst(accounts, mid, accounts', p, plan);
    AdditionalsFirst(accounts, mid, accounts', p, plan);
  }

  lemma {:induction false} BatchJoins(w: Work, plan: seq<StakePair>, later: seq<StakePair>, last: Accounts)
    requires Mergeable(w.list, plan + later) && Apart(plan + later)
    requires MergeLoop(w, MergeInstructions(plan), MergeKeys(plan)).Ok?
    requires Joined(MergeLoop(w, MergeInstructions(plan), MergeKeys(plan)).value.accounts, last, later)
    ensures Joined(w.accounts, last, plan + later)
    decreases |plan|
  {
    hide Joined, JoinedBy, MergeOne, Mergeable, Apart;
    if plan == [] {
      assert [] + later == later;
    } else {
      var rest := plan[1..] + later;
      assert plan + later == [plan[0]] + rest;
      MergeOneAccepts(w, plan[0], rest);
      MergeOneOutcome(w, plan[0], rest);
      ApartTail(plan[0], rest);
      assert MergeInstructions(plan)[1..] == MergeInstructions(plan[1..]);
      assert MergeKeys(plan)[2..] == MergeKeys(plan[1..]);
      var w1 := MergeOne(w, MergeInstructions(plan)[0], MergeKeys(plan)[0], MergeKeys(plan)[1]).value;
      BatchJoins(w1, plan[1..], later, last);
      JoinedFirst(w.accounts, w1.accounts, last, plan[0], rest);
    }
  }

  lemma {:induction false} PlanTail(list: seq<ValidatorStakeInfo>, plan: seq<StakePair>, n: nat)
    requires Mergeable(list, plan) && Apart(plan) && n <= |plan|
    ensures Mergeable(list, plan[n..]) && Apart(plan[n..])
  {
    hide Find, CountOf, Main, Additional;
  }

  /** A merge plan that goes through leaves just that. */
  lemma {:induction false} MergesJoin(s: State, plan: seq<StakePair>)
    requires Mergeable(s.validators, plan) && Apart(plan) && SendMerges(s, plan).Ok?
    ensures Joined(s.bank.accounts, SendMerges(s, plan).value.bank.accounts, plan)
    decreases |plan|
  {
    hide MergeLoop, Mergeable, Apart, Claim, Absorbs;
    if plan != [] {
      hide Joined;
      var n := Min(4, |plan|);
      var last := SendMerges(s, plan).value.bank.accounts;
      assert plan[..n] + plan[n..] == plan;
      MergeBatchAccepted(Start(s), plan[..n], plan[n..]);
      var w := MergeLoop(Start(s), MergeInstructions(plan[..n]), MergeKeys(plan[..n])).value;
      PlanTail(s.validators, plan, n);
      MergesJoin(Commit(s, w), plan[n..]);
      BatchJoins(Start(s), plan[..n], plan[n..], last);
    }
  }

  lemma {:induction false} FitsNothing(accounts: Accounts)
    ensures Fits(accounts, [])
  {
  }

  lemma {:induction false} MergePlanOneMain(list: seq<ValidatorStakeInfo>, validators: seq<ValidatorView>, n: nat)
    requires Snapshot(list, validators) && Readable(validators) && n <= |validators|
    ensures OneMain(MergePlan(validators, n))
  {
    hide ActiveIndices, Pairs;
    if n > 0 {
      var v, before := validators[n - 1], MergePlan(validators, n - 1);
      MergePlanOneMain(list, validators, n - 1);
      MergePlanIsMergeable(list, validators, n - 1);
      var active := ActiveIndices(v.stakes, |v.stakes|);
      PairsAt(v.vote, active, |active| - 1);
      assert NoneOf(before, v.vote);
    }
  }

  /** Merging all stakes of the list as it stands is refused only over their states, and
      goes through exactly when the planned accounts hold stakes that join and fit. */
  lemma {:induction false} MergeAllStakesAccepted(s: State, validators: seq<ValidatorView>)
    requires Snapshot(s.validators, validators) && Readable(validators)
    ensures var plan := MergePlan(validators, |validators|);
            && (SendMerges(s, plan).Ok? <==> Fits(s.bank.accounts, plan))
            && (SendMerges(s, plan).Err? ==> StakeError(SendMerges(s, plan).error))
            && (SendMerges(s, plan).Ok? ==> Joined(s.bank.accounts, SendMerges(s, plan).value.bank.accounts, plan))
  {
    hide Joined, Fits;
    var plan := MergePlan(validators, |validators|);
    MergePlanIsMergeable(s.validators, validators, |validators|);
    MergePlanOneMain(s.validators, validators, |validators|);
    MergeableApart(s.validators, plan);
    MergesCommit(s, plan);
    MergesAccepted(s, plan);
    if SendMerges(s, plan).Ok? {
      MergesJoin(s, plan);
    }
  }
}
