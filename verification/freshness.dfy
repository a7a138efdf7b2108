/** Price freshness: which refreshes must have happened before a step that relies
    on an up-to-date price. */
module Freshness {
  import opened Machine
  import opened Data
  import opened Ledger
  import opened Invariants
  import opened Upkeep
  import opened Runs

  /** Step `j` of the run commits in `epoch`. */
  ghost predicate Commits(s0: State, steps: seq<Step>, j: nat, epoch: u64) {
    && j < |steps|
    && Next(Exec(s0, steps[..j]), steps[j]).Ok?
    && Exec(s0, steps[..j]).bank.epoch == epoch
  }

  /** Step `j` refreshes the pool in `epoch`, finding every record of that epoch. */
  ghost predicate PoolRefresh(s0: State, steps: seq<Step>, j: nat, epoch: u64) {
    && Commits(s0, steps, j, epoch)
    && steps[j].UpdatePoolStep?
    && forall k :: 0 <= k < |Exec(s0, steps[..j]).validators| ==>
         Exec(s0, steps[..j]).validators[k].lastUpdateEpoch == epoch
  }

  /** Step `j` refreshes or adds validator `v` in `epoch`. */
  ghost predicate RecordRefresh(s0: State, steps: seq<Step>, j: nat, epoch: u64, v: Pubkey) {
    && Commits(s0, steps, j, epoch)
    && ( || steps[j] == AddValidatorStep(v)
         || (steps[j].UpdateListStep? && Wallet(v) in steps[j].keys))
  }

  lemma {:induction false} CommitsExtend(s0: State, steps: seq<Step>, n: nat, j: nat, epoch: u64)
    requires n <= |steps| && j < n
    ensures steps[..n][..j] == steps[..j] && steps[..n][j] == steps[j]
    ensures Commits(s0, steps[..n], j, epoch) ==> Commits(s0, steps, j, epoch)
  {
    assert steps[..n][..j] == steps[..j];
  }

  ghost predicate PoolRefreshedBefore(s0: State, steps: seq<Step>, epoch: u64) {
    epoch == s0.bank.epoch || exists j :: 0 <= j < |steps| && PoolRefresh(s0, steps, j, epoch)
  }

  /** A pool refresh finds every record of the present epoch. */
  lemma {:induction false} RefreshFindsAll(s: State)
    requires ClockOk(s) && Next(s, UpdatePoolStep).Ok?
    ensures forall k :: 0 <= k < |s.validators| ==> s.validators[k].lastUpdateEpoch == s.bank.epoch
  {
    TotalLoopCurrent(s.validators, 0, s.bank.reserve, s.bank.epoch);
  }

  lemma {:induction false} TotalLoopCurrent(list: seq<ValidatorStakeInfo>, i: nat, total: u64, epoch: u64)
    requires i <= |list| && TotalLoop(list, i, total, epoch).Ok?
    ensures forall k :: i <= k < |list| ==> list[k].lastUpdateEpoch >= epoch
    decreases |list| - i
  {
    if i < |list| {
      TotalLoopCurrent(list, i + 1, WrapAdd64(total, list[i].balance), epoch);
    }
  }

  /** The pool's update epoch is the initialization's or that of an earlier refresh. */
  lemma {:induction false} PoolEpochOrigin(s0: State, steps: seq<Step>)
    requires Init(s0)
    ensures PoolRefreshedBefore(s0, steps, Exec(s0, steps).pool.lastUpdateEpoch)
    decreases |steps|
  {
    hide Next, Inv;
    InitOk(s0);
    if steps != [] {
      var n := |steps| - 1;
      var s := Exec(s0, steps[..n]);
      ClockInOrder(s0, steps[..n]);
      PoolEpochOrigin(s0, steps[..n]);
      if Next(s, steps[n]).Ok? {
        PoolEpochStep(s, steps[n]);
      }
      if Next(s, steps[n]).Ok? && steps[n].UpdatePoolStep? {
        RefreshFindsAll(s);
        assert PoolRefresh(s0, steps, n, s.bank.epoch);
      } else if s.pool.lastUpdateEpoch != s0.bank.epoch {
        var j :| 0 <= j < n && PoolRefresh(s0, steps[..n], j, s.pool.lastUpdateEpoch);
        CommitsExtend(s0, steps, n, j, s.pool.lastUpdateEpoch);
        assert PoolRefresh(s0, steps, j, s.pool.lastUpdateEpoch);
      }
    }
  }

  /** Every listed record was refreshed, or added, in the epoch it carries. */
  lemma {:induction false} RecordEpochOrigin(s0: State, steps: seq<Step>, k: nat)
    requires Init(s0) && k < |Exec(s0, steps).validators|
    ensures var r := Exec(s0, steps).validators[k];
            exists j :: 0 <= j < |steps| && RecordRefresh(s0, steps, j, r.lastUpdateEpoch, r.validator)
    decreases |steps|
  {
    hide Next, Inv;
    InitOk(s0);
    var r := Exec(s0, steps).validators[k];
    var n := |steps| - 1;
    var s := Exec(s0, steps[..n]);
    if Next(s, steps[n]).Ok? {
      RecordStep(s, steps[n], k);
    } else {
      assert s.validators[k] == r;
    }
    if i :| 0 <= i < |s.validators| && s.validators[i].validator == r.validator
            && s.validators[i].lastUpdateEpoch == r.lastUpdateEpoch {
      RecordEpochOrigin(s0, steps[..n], i);
      var j :| 0 <= j < n && RecordRefresh(s0, steps[..n], j, r.lastUpdateEpoch, r.validator);
      CommitsExtend(s0, steps, n, j, r.lastUpdateEpoch);
      assert RecordRefresh(s0, steps, j, r.lastUpdateEpoch, r.validator);
    } else {
      assert RecordRefresh(s0, steps, n, r.lastUpdateEpoch, r.validator);
    }
  }

  /** A step that relies on an up-to-date price. */
  predicate NeedsFreshPrice(step: Step) {
    step.PayCreditorsStep? || step.AddValidatorStep? || step.RemoveValidatorStep?
  }

  lemma {:induction false} FreshNow(s: State, step: Step)
    requires ClockOk(s) && NeedsFreshPrice(step) && Next(s, step).Ok?
    ensures s.pool.lastUpdateEpoch == s.bank.epoch
  {
  }

  /** Price freshness. A payment, or a change of the validator list, commits only in
      the epoch the pool was initialized in, or after a pool refresh in the same
      epoch; and before that refresh every validator then listed had itself been
      refreshed, or added, in that epoch. */
  lemma {:induction false} PriceIsFresh(s0: State, steps: seq<Step>, n: nat)
    requires Init(s0) && n < |steps|
    requires NeedsFreshPrice(steps[n]) && Next(Exec(s0, steps[..n]), steps[n]).Ok?
    ensures var epoch := Exec(s0, steps[..n]).bank.epoch;
            || epoch == s0.bank.epoch
            || exists j :: 0 <= j < n && PoolRefresh(s0, steps, j, epoch)
                 && forall k :: 0 <= k < |Exec(s0, steps[..j]).validators| ==>
                      ValidatorRefreshed(s0, steps, j, epoch, Exec(s0, steps[..j]).validators[k].validator)
  {
    hide Next, Init;
    var s := Exec(s0, steps[..n]);
    ClockInOrder(s0, steps[..n]);
    PoolEpochOrigin(s0, steps[..n]);
    FreshNow(s, steps[n]);
    if s.bank.epoch != s0.bank.epoch {
      var j :| 0 <= j < n && PoolRefresh(s0, steps[..n], j, s.bank.epoch);
      CommitsExtend(s0, steps, n, j, s.bank.epoch);
      assert PoolRefresh(s0, steps, j, s.bank.epoch);
      forall k | 0 <= k < |Exec(s0, steps[..j]).validators|
        ensures ValidatorRefreshed(s0, steps, j, s.bank.epoch, Exec(s0, steps[..j]).validators[k].validator)
      {
        RecordEpochOrigin(s0, steps[..j], k);
        var v := Exec(s0, steps[..j]).validators[k].validator;
        var i :| 0 <= i < j && RecordRefresh(s0, steps[..j], i, s.bank.epoch, v);
        CommitsExtend(s0, steps, j, i, s.bank.epoch);
        assert RecordRefresh(s0, steps, i, s.bank.epoch, v);
      }
    }
  }

  /** Some step before `j` refreshed or added validator `v` in `epoch`. */
  ghost predicate ValidatorRefreshed(s0: State, steps: seq<Step>, j: nat, epoch: u64, v: Pubkey) {
    exists i :: 0 <= i < j && RecordRefresh(s0, steps, i, epoch, v)
  }
}
