/** The off-chain planner: how much of the reserve goes to which validator, and which
    stake accounts are merged. Amounts are whole lamports. */
module Planner {
  import opened Machine
  import opened Data
  import opened Ledger
  import opened Staking

  /** What the RPC node says about a stake account; `Unreadable` when it fails. */
  datatype Activation = Activating(active: nat) | Active | Deactivating | Inactive | Unreadable

  /** `free` when there is no account. The client means to count accounts of the system
      program too, but it compares key objects, not their bytes, and never finds one. */
  datatype Probe = Probe(activation: Activation, free: bool)

  /** A validator record as read, with one probe for each counted stake account. */
  datatype ValidatorView = ValidatorView(vote: Pubkey, balance: u64, stakes: seq<Probe>)

  datatype PlannedDelegation = PlannedDelegation(address: Pubkey, amount: u64, stakeIndex: u32)

  datatype PlanError = TooLowDelegation | NoValidatorAdded | Left(amount: u64)

  /** The planner's own minimum, ten times the program's. */
  const PLAN_MIN: u64 := 1_000_000_000

  /** What an RPC snapshot can hold: counts are 32-bit. */
  predicate Readable(validators: seq<ValidatorView>) {
    forall i :: 0 <= i < |validators| ==> |validators[i].stakes| < U32_LIMIT
  }

  function BalanceTotal(validators: seq<ValidatorView>, n: nat): nat
    requires n <= |validators|
  {
    if n == 0 then 0 else BalanceTotal(validators, n - 1) + validators[n - 1].balance
  }

  /** The balance everyone would have after an even split, rounded up. */
  function Target(validators: seq<ValidatorView>, total: nat): nat
    requires validators != []
  {
    (BalanceTotal(validators, |validators|) + total + |validators| - 1) / |validators|
  }

  function Gap(v: ValidatorView, target: nat): nat {
    if v.balance >= target then 0 else target - v.balance
  }

  /** What validators from `i` on lack to reach the target. */
  function Need(validators: seq<ValidatorView>, target: nat, i: nat): nat
    requires i <= |validators|
    decreases |validators| - i
  {
    if i == |validators| then 0 else Gap(validators[i], target) + Need(validators, target, i + 1)
  }

  function AmountSum(plan: seq<PlannedDelegation>): nat {
    if plan == [] then 0 else AmountSum(plan[..|plan| - 1]) + plan[|plan| - 1].amount
  }

  lemma {:induction false} NeedWithin(validators: seq<ValidatorView>, target: nat, i: nat)
    requires i <= |validators|
    ensures Need(validators, target, i)
         >= (|validators| - i) * target - (BalanceTotal(validators, |validators|) - BalanceTotal(validators, i))
    decreases |validators| - i
  {
    if i < |validators| {
      NeedWithin(validators, target, i + 1);
      assert (|validators| - i) * target == (|validators| - (i + 1)) * target + target;
    }
  }

  /** The target is the even share, rounded up. */
  lemma {:induction false} TargetExactly(validators: seq<ValidatorView>, total: nat)
    requires validators != []
    ensures var sum := BalanceTotal(validators, |validators|) + total;
            sum <= |validators| * Target(validators, total) < sum + |validators|
  {
    var n, sum := |validators|, BalanceTotal(validators, |validators|) + total;
    assert sum + n - 1 == n * ((sum + n - 1) / n) + (sum + n - 1) % n;
  }

  /** Rounding the target up makes room for the whole amount. */
  lemma {:induction false} RoomForAll(validators: seq<ValidatorView>, total: nat)
    requires validators != []
    ensures total <= Need(validators, Target(validators, total), 0)
  {
    var n, sum := |validators|, BalanceTotal(validators, |validators|) + total;
    var target := Target(validators, total);
    assert sum <= n * target by {
      assert sum + n - 1 == n * ((sum + n - 1) / n) + (sum + n - 1) % n;
    }
    NeedWithin(validators, target, 0);
  }

  /** Not one of the first `n` accounts is still wholly activating. */
  predicate NoneActivating(stakes: seq<Probe>, n: nat)
    requires n <= |stakes|
  {
    forall j :: 0 <= j < n ==> stakes[j].activation != Activating(0)
  }

  /** The stake index to use: of the first account still wholly activating; if there is
      none, the last free index; if there is none, one past the counted ones. */
  predicate Chosen(stakes: seq<Probe>, index: nat) {
    && index <= |stakes|
    && if NoneActivating(stakes, |stakes|) then
         && (index < |stakes| ==> stakes[index].free)
         && (forall j :: 0 <= j < |stakes| && stakes[j].free ==> j <= index < |stakes|)
       else
         index < |stakes| && stakes[index].activation == Activating(0) && NoneActivating(stakes, index)
  }

  method StakeIndex(stakes: seq<Probe>) returns (index: nat)
    ensures Chosen(stakes, index)
  {
    for i := 0 to |stakes|
      invariant NoneActivating(stakes, i)
    {
      if stakes[i].activation.Activating? && stakes[i].activation.active == 0 {
        return i;
      }
    }
    index := |stakes|;
    for i := 0 to |stakes|
      invariant index == |stakes| || (index < i && stakes[index].free)
      invariant forall j :: 0 <= j < i && stakes[j].free ==> j <= index < |stakes|
    {
      if stakes[i].free {
        index := i;
      }
    }
  }

  /** Entry `p` puts validator `v` exactly on target. */
  predicate OnTarget(p: PlannedDelegation, v: ValidatorView, target: nat) {
    p.address == v.vote && v.balance < target && v.balance + p.amount == target && Chosen(v.stakes, p.stakeIndex)
  }

  /** The final entry: at least the minimum, and less than the minimum over target. */
  predicate Final(p: PlannedDelegation, v: ValidatorView, target: nat) {
    && p.address == v.vote && v.balance < target && Chosen(v.stakes, p.stakeIndex)
    && PLAN_MIN <= p.amount && v.balance + p.amount < target + PLAN_MIN
  }

  /** A plan for the first `n` validators, with `left` still to hand out; `picks` are
      the validators funded. */
  ghost predicate PlanOk(plan: seq<PlannedDelegation>, picks: seq<nat>, validators: seq<ValidatorView>,
                         target: nat, n: nat, left: nat)
  {
    && |picks| == |plan| && n <= |validators|
    && (forall i :: 0 <= i < |picks| ==> picks[i] < n)
    && (forall i, j :: 0 <= i < j < |picks| ==> picks[i] < picks[j])
    && (forall i :: 0 <= i < |plan| - 1 ==> OnTarget(plan[i], validators[picks[i]], target))
    && (left > 0 && plan != [] ==> OnTarget(plan[|plan| - 1], validators[picks[|plan| - 1]], target))
    && (left == 0 ==> plan != [] && Final(plan[|plan| - 1], validators[picks[|plan| - 1]], target))
    && (forall k :: 0 <= k < n && k !in picks ==> validators[k].balance >= target)
  }

  lemma {:induction false} PlanSkip(plan: seq<PlannedDelegation>, picks: seq<nat>, validators: seq<ValidatorView>,
                                    target: nat, n: nat, left: nat)
    requires PlanOk(plan, picks, validators, target, n, left) && n < |validators| && validators[n].balance >= target
    ensures PlanOk(plan, picks, validators, target, n + 1, left)
  {
  }

  lemma {:induction false} PlanExtend(plan: seq<PlannedDelegation>, picks: seq<nat>, validators: seq<ValidatorView>,
                                      target: nat, n: nat, before: nat, left: nat, p: PlannedDelegation)
    requires PlanOk(plan, picks, validators, target, n, before) && n < |validators| && before > 0
    requires if left > 0 then OnTarget(p, validators[n], target) else Final(p, validators[n], target)
    ensures PlanOk(plan + [p], picks + [n], validators, target, n + 1, left)
    ensures AmountSum(plan + [p]) == AmountSum(plan) + p.amount
  {
    hide OnTarget, Final;
    var picks' := picks + [n];
    assert (plan + [p])[..|plan|] == plan;
    assert picks'[|plan|] == n;
    forall k | 0 <= k < n + 1 && k !in picks' ensures validators[k].balance >= target {
      assert k in picks ==> k in picks';
    }
  }

  /** Allocator completeness. Every amount of at least the minimum is handed out in
      full: the "Left" error cannot happen. Entries follow the list's order; every
      validator passed over is already at or above target; all funded ones but the
      last end exactly on target, and the last below target plus the minimum; and
      every stake index is the chosen one. `picks` are the validators funded. */
  method PlanDelegation(total: u64, validators: seq<ValidatorView>)
    returns (r: Result<seq<PlannedDelegation>, PlanError>, ghost picks: seq<nat>, ghost n: nat)
    requires Readable(validators)
    ensures r.Err? ==> r.error == (if total < PLAN_MIN then TooLowDelegation else NoValidatorAdded)
    ensures r.Ok? <==> total >= PLAN_MIN && validators != []
    ensures r.Ok? ==> AmountSum(r.value) == total
    ensures r.Ok? ==> PlanOk(r.value, picks, validators, Target(validators, total), n, 0)
  {
    hide Target, PlanOk;
    picks, n := [], 0;
    if total < PLAN_MIN {
      return Err(TooLowDelegation), [], 0;
    }
    if |validators| == 0 {
      return Err(NoValidatorAdded), [], 0;
    }
    var target := Target(validators, total);
    RoomForAll(validators, total);
    var plan: seq<PlannedDelegation> := [];
    var left: u64 := total;
    PlanNothing(validators, target, left);
    var i: nat := 0;
    while i < |validators| && left >= 1
      invariant i <= |validators|
      // nothing is left, or at least the minimum
      invariant left == 0 || left >= PLAN_MIN
      invariant left <= Need(validators, target, i)
      invariant AmountSum(plan) + left == total
      invariant PlanOk(plan, picks, validators, target, i, left)
      decreases |validators| - i
    {
      var v := validators[i];
      if v.balance >= target {
        PlanSkip(plan, picks, validators, target, i, left);
      } else {
        ghost var before := left;
        var amount := Min(target - v.balance, left);
        left := left - amount;
        if left < PLAN_MIN {
          amount := amount + left;
          left := 0;
        }
        var index := StakeIndex(v.stakes);
        var entry := PlannedDelegation(v.vote, amount, index);
        PlanExtend(plan, picks, validators, target, i, before, left, entry);
        plan, picks := plan + [entry], picks + [i];
      }
      i := i + 1;
    }
    if left > 0 {
      return Err(Left(left)), picks, i;
    }
    return Ok(plan), picks, i;
  }

  lemma {:induction false} PlanNothing(validators: seq<ValidatorView>, target: nat, left: nat)
    requires left > 0
    ensures PlanOk([], [], validators, target, 0, left)
  {
  }

  /** In a finished plan an amount is under the minimum exactly when its validator,
      not the last one funded, was that close to target. */
  lemma {:induction false} SmallAmounts(plan: seq<PlannedDelegation>, picks: seq<nat>, validators: seq<ValidatorView>,
                                        target: nat, n: nat, i: nat)
    requires PlanOk(plan, picks, validators, target, n, 0) && i < |plan|
    ensures plan[i].amount < PLAN_MIN <==> i < |plan| - 1 && target - validators[picks[i]].balance < PLAN_MIN
  {
  }

  // ---- merging

  datatype StakePair = StakePair(validator: Pubkey, mainIndex: u32, additionalIndex: u32)

  /** Indices of the active stakes among the first `n`, ascending. */
  function ActiveIndices(stakes: seq<Probe>, n: nat): (r: seq<nat>)
    requires n <= |stakes|
    ensures forall i :: 0 <= i < |r| ==> r[i] < n && stakes[r[i]].activation.Active?
    ensures forall i, j :: 0 <= i < j < |r| ==> r[i] < r[j]
    ensures forall k :: 0 <= k < n && stakes[k].activation.Active? ==> k in r
  {
    if n == 0 then []
    else if stakes[n - 1].activation.Active? then ActiveIndices(stakes, n - 1) + [n - 1]
    else ActiveIndices(stakes, n - 1)
  }

  /** Everything from position `i` down to 1 is merged into position 0, last first. */
  function Pairs(v: Pubkey, indices: seq<nat>, i: int): seq<StakePair>
    requires i < |indices| && (forall k :: 0 <= k < |indices| ==> indices[k] < U32_LIMIT)
    decreases i
  {
    if i <= 0 then [] else [StakePair(v, indices[0], indices[i])] + Pairs(v, indices, i - 1)
  }

  /** The pairs planned for one validator. */
  function PairsOf(v: ValidatorView): seq<StakePair>
    requires |v.stakes| < U32_LIMIT
  {
    var active := ActiveIndices(v.stakes, |v.stakes|);
    Pairs(v.vote, active, |active| - 1)
  }

  function MergePlan(validators: seq<ValidatorView>, n: nat): seq<StakePair>
    requires Readable(validators) && n <= |validators|
  {
    if n == 0 then [] else MergePlan(validators, n - 1) + PairsOf(validators[n - 1])
  }

  /** The plan in full: for each validator, every active index but the first is merged into
      the first, once, the last index first. */
  lemma {:induction false} PairsExactly(v: ValidatorView)
    requires |v.stakes| < U32_LIMIT
    ensures var active := ActiveIndices(v.stakes, |v.stakes|);
            && |PairsOf(v)| == Max(0, |active| - 1)
            && forall k :: 0 <= k < |PairsOf(v)| ==>
                 PairsOf(v)[k] == StakePair(v.vote, active[0], active[|active| - 1 - k])
  {
    var active := ActiveIndices(v.stakes, |v.stakes|);
    PairsAt(v.vote, active, |active| - 1);
  }

  lemma {:induction false} PairsAt(v: Pubkey, indices: seq<nat>, i: int)
    requires -1 <= i < |indices| && (forall k :: 0 <= k < |indices| ==> indices[k] < U32_LIMIT)
    ensures |Pairs(v, indices, i)| == (if i < 0 then 0 else i)
    ensures forall k :: 0 <= k < |Pairs(v, indices, i)| ==>
              Pairs(v, indices, i)[k] == StakePair(v, indices[0], indices[i - k])
    decreases i
  {
    if i > 0 {
      PairsAt(v, indices, i - 1);
    }
  }

  /** How many pairs the first `n` validators have between them. */
  function PairCount(validators: seq<ValidatorView>, n: nat): nat
    requires n <= |validators|
  {
    if n == 0 then 0
    else
      var stakes := validators[n - 1].stakes;
      PairCount(validators, n - 1) + Max(0, |ActiveIndices(stakes, |stakes|)| - 1)
  }

  /** Every later active index of `v` is merged into the first. */
  ghost predicate HasPairsOf(plan: seq<StakePair>, v: ValidatorView) {
    && |v.stakes| < U32_LIMIT
    && var active := ActiveIndices(v.stakes, |v.stakes|);
       forall j :: 0 < j < |active| ==> StakePair(v.vote, active[0], active[j]) in plan
  }

  /** The whole plan: all pairs of every validator, and no more than that. */
  lemma {:induction false} MergePlanExactly(validators: seq<ValidatorView>, n: nat)
    requires Readable(validators) && n <= |validators|
    ensures |MergePlan(validators, n)| == PairCount(validators, n)
    ensures forall k :: 0 <= k < n ==> HasPairsOf(MergePlan(validators, n), validators[k])
  {
    hide PairsOf, HasPairsOf, ActiveIndices;
    if n > 0 {
      MergePlanExactly(validators, n - 1);
      PairsExactly(validators[n - 1]);
      var before, last := MergePlan(validators, n - 1), PairsOf(validators[n - 1]);
      HasOwnPairs(validators[n - 1]);
      forall k | 0 <= k < n ensures HasPairsOf(before + last, validators[k]) {
        if k < n - 1 {
          StillHasPairs(before, before + last, validators[k]);
        } else {
          StillHasPairs(last, before + last, validators[k]);
        }
      }
    }
  }

  lemma {:induction false} HasOwnPairs(v: ValidatorView)
    requires |v.stakes| < U32_LIMIT
    ensures HasPairsOf(PairsOf(v), v)
  {
    hide PairsOf;
    PairsExactly(v);
    var active := ActiveIndices(v.stakes, |v.stakes|);
    forall j | 0 < j < |active| ensures StakePair(v.vote, active[0], active[j]) in PairsOf(v) {
      assert PairsOf(v)[|active| - 1 - j] == StakePair(v.vote, active[0], active[j]);
    }
  }

  lemma {:induction false} StillHasPairs(plan: seq<StakePair>, more: seq<StakePair>, v: ValidatorView)
    requires HasPairsOf(plan, v) && forall p :: p in plan ==> p in more
    ensures HasPairsOf(more, v)
  {
    hide ActiveIndices;
  }

  method ActiveStakes(stakes: seq<Probe>) returns (active: seq<nat>)
    ensures active == ActiveIndices(stakes, |stakes|)
  {
    active := [];
    for i := 0 to |stakes|
      invariant active == ActiveIndices(stakes, i)
    {
      if stakes[i].activation.Active? {
        active := active + [i];
      }
    }
  }

  method PairUp(v: Pubkey, active: seq<nat>) returns (pairs: seq<StakePair>)
    requires forall k :: 0 <= k < |active| ==> active[k] < U32_LIMIT
    ensures pairs == Pairs(v, active, |active| - 1)
  {
    pairs := [];
    var i := |active| - 1;
    while i > 0
      invariant -1 <= i < |active|
      invariant pairs + Pairs(v, active, i) == Pairs(v, active, |active| - 1)
    {
      var pair := StakePair(v, active[0], active[i]);
      assert pairs + ([pair] + Pairs(v, active, i - 1)) == pairs + [pair] + Pairs(v, active, i - 1);
      pairs := pairs + [pair];
      i := i - 1;
    }
  }

  method PlanMerges(validators: seq<ValidatorView>) returns (pairs: seq<StakePair>)
    requires Readable(validators)
    ensures pairs == MergePlan(validators, |validators|)
  {
    pairs := [];
    for n := 0 to |validators|
      invariant pairs == MergePlan(validators, n)
    {
      var active := ActiveStakes(validators[n].stakes);
      var more := PairUp(validators[n].vote, active);
      pairs := pairs + more;
    }
  }
}

/** The planner's batches meet the program's checks. */
module PlannerProofs {
  import opened Machine
  import opened Data
  import opened Ledger
  import opened Staking
  import opened Planner

  function Instructions(plan: seq<PlannedDelegation>): seq<DelegateReserveInstruction> {
    seq(|plan|, i requires 0 <= i < |plan| => DelegateReserveInstruction(plan[i].amount, plan[i].stakeIndex))
  }

  /** The accounts the planner attaches: the vote account and the stake account. */
  function Keys(plan: seq<PlannedDelegation>): seq<Address> {
    if plan == [] then []
    else [Wallet(plan[0].address), Pda(StakeKey(plan[0].address, plan[0].stakeIndex))] + Keys(plan[1..])
  }

  /** The list as planned for: every entry names a different listed validator, and
      an index within its count, or the next one. */
  ghost predicate Plannable(list: seq<ValidatorStakeInfo>, plan: seq<PlannedDelegation>) {
    && Distinct(list)
    && (forall i :: 0 <= i < |plan| ==>
          Find(list, plan[i].address).Some? && plan[i].stakeIndex <= CountOf(list, plan[i].address))
    && (forall i, j :: 0 <= i < j < |plan| ==> plan[i].address != plan[j].address)
  }

  /** Failures that depend on what the accounts hold, not on the plan's indices and keys. */
  predicate AccountError(e: Error) {
    e == InsufficientFunds || e == AccountInUse || e == TransferFailed || e == StakeProgramFailure
  }

  lemma {:induction false} DelegateOneAccepts(w: Work, p: PlannedDelegation, plan: seq<PlannedDelegation>,
                                              available: u64, rent: Rent)
    requires Plannable(w.list, [p] + plan)
    ensures var r := DelegateOne(w, DelegateReserveInstruction(p.amount, p.stakeIndex), Wallet(p.address),
                                 Pda(StakeKey(p.address, p.stakeIndex)), available, rent);
            && (r.Err? ==> AccountError(r.error))
            && (r.Ok? ==> Plannable(r.value.list, plan))
  {
    var r := DelegateOne(w, DelegateReserveInstruction(p.amount, p.stakeIndex), Wallet(p.address),
                         Pda(StakeKey(p.address, p.stakeIndex)), available, rent);
    assert ([p] + plan)[0] == p;
    if r.Ok? {
      var k := Find(w.list, p.address).value;
      CountOfReplaced(w.list, k, r.value.list[k], p.address);
      forall i | 0 <= i < |plan|
        ensures Find(r.value.list, plan[i].address).Some?
        ensures plan[i].stakeIndex <= CountOf(r.value.list, plan[i].address)
      {
        assert ([p] + plan)[i + 1] == plan[i];
        CountOfReplaced(w.list, k, r.value.list[k], plan[i].address);
        assert r.value.list[Find(w.list, plan[i].address).value].validator == plan[i].address;
      }
      forall i, j | 0 <= i < j < |plan| ensures plan[i].address != plan[j].address {
        assert ([p] + plan)[i + 1] == plan[i] && ([p] + plan)[j + 1] == plan[j];
      }
    }
  }

  /** One transaction of the plan: `later` are the entries left for the next ones. */
  lemma {:induction false} BatchAccepted(w: Work, plan: seq<PlannedDelegation>, later: seq<PlannedDelegation>,
                                         available: u64, rent: Rent)
    requires Plannable(w.list, plan + later)
    ensures var r := DelegateLoop(w, Instructions(plan), Keys(plan), available, rent);
            && (r.Err? ==> AccountError(r.error))
            && (r.Ok? ==> Plannable(r.value.list, later))
    decreases |plan|
  {
    if plan == [] {
      assert [] + later == later;
    } else {
      assert plan + later == [plan[0]] + (plan[1..] + later);
      DelegateOneAccepts(w, plan[0], plan[1..] + later, available, rent);
      assert Instructions(plan)[1..] == Instructions(plan[1..]);
      assert Keys(plan)[2..] == Keys(plan[1..]);
      var r := DelegateOne(w, Instructions(plan)[0], Keys(plan)[0], Keys(plan)[1], available, rent);
      if r.Ok? {
        BatchAccepted(r.value, plan[1..], later, available, rent);
      }
    }
  }

  /** The plan sent four entries at a time, stopping at the first failure. */
  function SendDelegations(s: State, plan: seq<PlannedDelegation>, rent: Rent): Result<State, Error>
    decreases |plan|
  {
    if plan == [] then Ok(s)
    else
      var n := Min(4, |plan|);
      var s1 :- DelegateReserve(s, Instructions(plan[..n]), Keys(plan[..n]), rent);
      SendDelegations(s1, plan[n..], rent)
  }

  lemma {:induction false} CommitPlannable(s: State, w: Work, plan: seq<PlannedDelegation>)
    requires Plannable(s.validators, plan) && Plannable(w.list, plan)
    ensures Plannable(Commit(s, w).validators, plan)
  {
  }

  /** Delegation plan accepted on-chain: no transaction of it ever fails over an
      unknown validator, a stake index, an account address or a missing account. */
  lemma {:induction false} DelegationsAccepted(s: State, plan: seq<PlannedDelegation>, rent: Rent)
    requires Plannable(s.validators, plan)
    ensures SendDelegations(s, plan, rent).Err? ==> AccountError(SendDelegations(s, plan, rent).error)
    decreases |plan|
  {
    if plan != [] {
      var n := Min(4, |plan|);
      assert plan[..n] + plan[n..] == plan;
      BatchAccepted(Start(s), plan[..n], plan[n..], Spendable(s, rent), rent);
      var r := DelegateReserve(s, Instructions(plan[..n]), Keys(plan[..n]), rent);
      if r.Ok? {
        var w := DelegateLoop(Start(s), Instructions(plan[..n]), Keys(plan[..n]), Spendable(s, rent), rent).value;
        PlannableTail(s.validators, plan, n);
        CommitPlannable(s, w, plan[n..]);
        DelegationsAccepted(r.value, plan[n..], rent);
      }
    }
  }

  lemma {:induction false} PlannableTail(list: seq<ValidatorStakeInfo>, plan: seq<PlannedDelegation>, n: nat)
    requires Plannable(list, plan) && n <= |plan|
    ensures Plannable(list, plan[n..])
  {
  }

  /** The views the planner read are of this list. */
  ghost predicate Snapshot(list: seq<ValidatorStakeInfo>, validators: seq<ValidatorView>) {
    && Distinct(list) && |list| == |validators|
    && (forall i :: 0 <= i < |list| ==>
          list[i].validator == validators[i].vote && list[i].stakeCount == |validators[i].stakes|)
  }

  /** Every finished delegation plan for a snapshot of the list is acceptable. */
  lemma {:induction false} PlanIsPlannable(list: seq<ValidatorStakeInfo>, validators: seq<ValidatorView>,
                                           plan: seq<PlannedDelegation>, picks: seq<nat>, target: nat, n: nat)
    requires Snapshot(list, validators) && PlanOk(plan, picks, validators, target, n, 0)
    ensures Plannable(list, plan)
  {
    forall i | 0 <= i < |plan|
      ensures Find(list, plan[i].address).Some? && plan[i].stakeIndex <= CountOf(list, plan[i].address)
    {
      assert i < |plan| - 1 ==> OnTarget(plan[i], validators[picks[i]], target);
      CountOfListed(list, picks[i]);
    }
    forall i, j | 0 <= i < j < |plan| ensures plan[i].address != plan[j].address {
      assert OnTarget(plan[i], validators[picks[i]], target);
      assert j < |plan| - 1 ==> OnTarget(plan[j], validators[picks[j]], target);
      assert list[picks[i]].validator != list[picks[j]].validator;
    }
  }

  // ---- merges

  function MergeInstructions(plan: seq<StakePair>): seq<MergeStakesInstruction> {
    seq(|plan|, i requires 0 <= i < |plan| =>
      MergeStakesInstruction(plan[i].validator, plan[i].mainIndex, plan[i].additionalIndex))
  }

  function MergeKeys(plan: seq<StakePair>): seq<Address> {
    if plan == [] then []
    else
      [Pda(StakeKey(plan[0].validator, plan[0].mainIndex)), Pda(StakeKey(plan[0].validator, plan[0].additionalIndex))] +
      MergeKeys(plan[1..])
  }

  /** Every pair is of counted accounts, and those of one validator come last index first. */
  ghost predicate Mergeable(list: seq<ValidatorStakeInfo>, plan: seq<StakePair>) {
    && Distinct(list)
    && (forall i :: 0 <= i < |plan| ==>
          && Find(list, plan[i].validator).Some?
          && plan[i].mainIndex < plan[i].additionalIndex < CountOf(list, plan[i].validator))
    && (forall i, j :: 0 <= i < j < |plan| && plan[i].validator == plan[j].validator ==>
          plan[j].additionalIndex < plan[i].additionalIndex)
  }

  /** Failures that depend on the state of the two stake accounts. */
  predicate StakeError(e: Error) {
    e == InvalidAccountData || e == StakeProgramFailure
  }

  lemma {:induction false} MergeOneAccepts(w: Work, p: StakePair, plan: seq<StakePair>)
    requires Mergeable(w.list, [p] + plan)
    ensures var r := MergeOne(w, MergeStakesInstruction(p.validator, p.mainIndex, p.additionalIndex),
                              Pda(StakeKey(p.validator, p.mainIndex)), Pda(StakeKey(p.validator, p.additionalIndex)));
            && (r.Err? ==> StakeError(r.error))
            && (r.Ok? ==> Mergeable(r.value.list, plan))
  {
    var r := MergeOne(w, MergeStakesInstruction(p.validator, p.mainIndex, p.additionalIndex),
                      Pda(StakeKey(p.validator, p.mainIndex)), Pda(StakeKey(p.validator, p.additionalIndex)));
    assert ([p] + plan)[0] == p;
    assert forall i :: 0 <= i < |plan| ==> ([p] + plan)[i + 1] == plan[i];
    if r.Ok? {
      var k := Find(w.list, p.validator).value;
      var list := r.value.list;
      assert w.list[k := w.list[k]] == w.list;
      CountOfReplaced(w.list, k, list[k], p.validator);
      forall i | 0 <= i < |plan|
        ensures Find(list, plan[i].validator).Some? && plan[i].additionalIndex < CountOf(list, plan[i].validator)
      {
        CountOfReplaced(w.list, k, list[k], plan[i].validator);
        CountOfListed(w.list, k);
        assert list[Find(w.list, plan[i].validator).value].validator == plan[i].validator;
      }
    }
  }

  lemma {:induction false} MergeBatchAccepted(w: Work, plan: seq<StakePair>, later: seq<StakePair>)
    requires Mergeable(w.list, plan + later)
    ensures var r := MergeLoop(w, MergeInstructions(plan), MergeKeys(plan));
            && (r.Err? ==> StakeError(r.error))
            && (r.Ok? ==> Mergeable(r.value.list, later))
    decreases |plan|
  {
    if plan == [] {
      assert [] + later == later;
    } else {
      assert plan + later == [plan[0]] + (plan[1..] + later);
      MergeOneAccepts(w, plan[0], plan[1..] + later);
      assert MergeInstructions(plan)[1..] == MergeInstructions(plan[1..]);
      assert MergeKeys(plan)[2..] == MergeKeys(plan[1..]);
      var r := MergeOne(w, MergeInstructions(plan)[0], MergeKeys(plan)[0], MergeKeys(plan)[1]);
      if r.Ok? {
        MergeBatchAccepted(r.value, plan[1..], later);
      }
    }
  }

  /** The merge plan sent four pairs at a time, stopping at the first failure. */
  function SendMerges(s: State, plan: seq<StakePair>): Result<State, Error>
    decreases |plan|
  {
    if plan == [] then Ok(s)
    else
      var n := Min(4, |plan|);
      var s1 :- MergeStakes(s, MergeInstructions(plan[..n]), MergeKeys(plan[..n]));
      SendMerges(s1, plan[n..])
  }

  /** Merge plan accepted on-chain: although counts shrink as merges land and some
      merges are skipped, no transaction fails over an unknown validator, a stake
      index, an account address or a missing account. */
  lemma {:induction false} MergesAccepted(s: State, plan: seq<StakePair>)
    requires Mergeable(s.validators, plan)
    ensures SendMerges(s, plan).Err? ==> StakeError(SendMerges(s, plan).error)
    decreases |plan|
  {
    if plan != [] {
      var n := Min(4, |plan|);
      assert plan[..n] + plan[n..] == plan;
      MergeBatchAccepted(Start(s), plan[..n], plan[n..]);
      var r := MergeStakes(s, MergeInstructions(plan[..n]), MergeKeys(plan[..n]));
      if r.Ok? {
        assert Mergeable(s.validators, plan[n..]);
        MergesAccepted(r.value, plan[n..]);
      }
    }
  }

  ghost predicate AllOf(plan: seq<StakePair>, v: Pubkey) {
    forall i :: 0 <= i < |plan| ==> plan[i].validator == v
  }

  ghost predicate NoneOf(plan: seq<StakePair>, v: Pubkey) {
    forall i :: 0 <= i < |plan| ==> plan[i].validator != v
  }

  lemma {:induction false} PairsMergeable(list: seq<ValidatorStakeInfo>, v: ValidatorView)
    requires Distinct(list) && |v.stakes| < U32_LIMIT
    requires Find(list, v.vote).Some? && CountOf(list, v.vote) == |v.stakes|
    ensures Mergeable(list, PairsOf(v)) && AllOf(PairsOf(v), v.vote)
  {
    hide Find, CountOf;
    var active := ActiveIndices(v.stakes, |v.stakes|);
    PairsAt(v.vote, active, |active| - 1);
  }

  /** The plan for any snapshot of the list is acceptable. */
  lemma {:induction false} MergePlanIsMergeable(list: seq<ValidatorStakeInfo>, validators: seq<ValidatorView>, n: nat)
    requires Snapshot(list, validators) && Readable(validators) && n <= |validators|
    ensures Mergeable(list, MergePlan(validators, n))
    ensures forall k :: n <= k < |validators| ==> NoneOf(MergePlan(validators, n), validators[k].vote)
  {
    hide Mergeable, Find, CountOf, ActiveIndices, Pairs;
    if n == 0 {
      NothingMergeable(list);
    } else {
      MergePlanIsMergeable(list, validators, n - 1);
      var v, before := validators[n - 1], MergePlan(validators, n - 1);
      CountOfListed(list, n - 1);
      PairsMergeable(list, v);
      JoinMergeable(list, before, PairsOf(v), v.vote);
      forall k | n <= k < |validators| ensures NoneOf(before + PairsOf(v), validators[k].vote) {
        assert list[n - 1].validator != list[k].validator;
        assert NoneOf(before, validators[k].vote);
      }
    }
  }

  lemma {:induction false} NothingMergeable(list: seq<ValidatorStakeInfo>)
    requires Distinct(list)
    ensures Mergeable(list, [])
  {
  }

  lemma {:induction false} JoinMergeable(list: seq<ValidatorStakeInfo>, a: seq<StakePair>, b: seq<StakePair>, v: Pubkey)
    requires Mergeable(list, a) && Mergeable(list, b) && NoneOf(a, v) && AllOf(b, v)
    ensures Mergeable(list, a + b)
  {
    hide Find, CountOf;
  }
}
