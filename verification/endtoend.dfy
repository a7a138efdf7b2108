/** From the client's plan, through the encoded instructions, to the program's state. */
module EndToEnd {
  import opened Machine
  import opened Data
  import opened Ledger
  import opened Staking
  import opened Planner
  import opened PlannerProofs
  import opened PlanOutcomes
  import opened Processor
  import I = Instructions
  import R = Runs

  /** A delegation plan sent as bytes, four entries a transaction, stopping at the first failure. */
  function DelegateOverWire(s: State, plan: seq<PlannedDelegation>, c: Context): Result<State, Error>
    decreases |plan|
  {
    if plan == [] then Ok(s)
    else
      var n := Min(4, |plan|);
      var s1 :- Outcome(s, I.BatchImage(12, I.DelegateChunks(plan[..n])), c.(keys := Keys(plan[..n])));
      DelegateOverWire(s1, plan[n..], c)
  }

  /** A merge plan sent the same way. */
  function MergeOverWire(s: State, plan: seq<StakePair>, c: Context): Result<State, Error>
    decreases |plan|
  {
    if plan == [] then Ok(s)
    else
      var n := Min(4, |plan|);
      var s1 :- Outcome(s, I.BatchImage(13, I.MergeChunks(plan[..n])), c.(keys := MergeKeys(plan[..n])));
      MergeOverWire(s1, plan[n..], c)
  }

  lemma {:induction false} DelegateWireExact(s: State, plan: seq<PlannedDelegation>, c: Context)
    ensures DelegateOverWire(s, plan, c) == SendDelegations(s, plan, c.rent)
    decreases |plan|
  {
    hide I.BatchImage, I.Deserialize, DelegateReserve;
    if plan != [] {
      var n := Min(4, |plan|);
      I.DelegateRoundTrip(plan[..n]);
      var r := DelegateReserve(s, Instructions(plan[..n]), Keys(plan[..n]), c.rent);
      if r.Ok? {
        DelegateWireExact(r.value, plan[n..], c);
      }
    }
  }

  lemma {:induction false} MergeWireExact(s: State, plan: seq<StakePair>, c: Context)
    ensures MergeOverWire(s, plan, c) == SendMerges(s, plan)
    decreases |plan|
  {
    hide I.BatchImage, I.Deserialize, MergeStakes;
    if plan != [] {
      var n := Min(4, |plan|);
      I.MergeRoundTrip(plan[..n]);
      var r := MergeStakes(s, MergeInstructions(plan[..n]), MergeKeys(plan[..n]));
      if r.Ok? {
        MergeWireExact(r.value, plan[n..], c);
      }
    }
  }

  /** The bytes of the client's other instructions take the step of their name. */
  lemma {:induction false} SinglesOnChain(s: State, amount: u64, fee: Fee, c: Context)
    ensures Outcome(s, I.InitializeImage(fee), c) == R.Initialize(s, fee)
    ensures Outcome(s, [2], c) == R.Next(s, R.AddValidatorStep(c.vote))
    ensures Outcome(s, [3], c) == R.Next(s, R.RemoveValidatorStep(c.vote))
    ensures Outcome(s, [4], c) == R.Next(s, R.UpdateListStep(c.keys))
    ensures Outcome(s, [5], c) == R.Next(s, R.UpdatePoolStep)
    ensures Outcome(s, I.AmountImage(6, amount), c) == R.Next(s, R.DepositStep(amount, c.rent))
    ensures Outcome(s, I.AmountImage(7, amount), c) == R.Next(s, R.WithdrawStep(amount, c.rent))
    ensures Outcome(s, I.CreditImage(amount), c)
         == R.Next(s, R.CreditStep(amount, c.target, c.authority, c.systemTarget))
    ensures amount > 0 ==>
              Outcome(s, I.CreditImage(0 - (amount as int)), c)
              == R.Next(s, R.UncreditStep(amount, c.target, c.authority, c.signed))
    ensures Outcome(s, [9], c) == R.Next(s, R.SetOwnerStep(c.owner, c.feeAccount))
    ensures Outcome(s, [15], c) == R.Next(s, R.PayCreditorsStep(c.users, c.rent))
  {
    hide I.Deserialize, R.Next, R.Initialize;
    I.SingleRoundTrips(amount, fee);
  }

  /** The bytes of every delegation plan made of the list as it stands all commit exactly
      when the reserve can spend the total and each account takes its part; otherwise they
      are refused over what the accounts hold and nothing else. */
  lemma {:induction false} DelegateReserveBatchOnChain(s: State, validators: seq<ValidatorView>,
                                                       plan: seq<PlannedDelegation>, picks: seq<nat>, target: nat,
                                                       n: nat, c: Context)
    requires Snapshot(s.validators, validators) && PlanOk(plan, picks, validators, target, n, 0)
    ensures DelegateOverWire(s, plan, c).Ok? <==>
              && AmountSum(plan) <= Spendable(s, c.rent)
              && (forall i :: 0 <= i < |plan| ==> Takes(s.bank.accounts, plan[i]))
    ensures DelegateOverWire(s, plan, c).Err? ==> AccountError(DelegateOverWire(s, plan, c).error)
  {
    DelegateWireExact(s, plan, c);
    DelegateReserveBatchAccepted(s, validators, plan, picks, target, n, c.rent);
  }

  /** The bytes of the merge plan all commit exactly when the planned accounts hold stakes
      that join and fit; otherwise the program refuses them over stake states only. */
  lemma {:induction false} MergeAllStakesOnChain(s: State, validators: seq<ValidatorView>, c: Context)
    requires Snapshot(s.validators, validators) && Readable(validators)
    ensures var plan := MergePlan(validators, |validators|);
            && (MergeOverWire(s, plan, c).Ok? <==> Fits(s.bank.accounts, plan))
            && (MergeOverWire(s, plan, c).Err? ==> StakeError(MergeOverWire(s, plan, c).error))
  {
    MergeWireExact(s, MergePlan(validators, |validators|), c);
    MergeAllStakesAccepted(s, validators);
  }
}
