/** How much of a delegation is effective in an epoch: it warms up after activation
    and cools down after deactivation at a pace set by the cluster's history. */
module StakeCurve {
  import opened Machine

  datatype ClusterStake = ClusterStake(effective: u64, activating: u64, deactivating: u64)

  type History = map<u64, ClusterStake>

  datatype Delegation = Delegation(stake: u64, activationEpoch: u64, deactivationEpoch: u64)

  /** The floating-point entitlement, rounded to an integer, of a stake `portion` out of
      `pending` when the cluster's effective stake is given: any function at all. */
  type Share = (u64, u64, u64) -> u64

  const MAX_EPOCH: u64 := U64_LIMIT - 1

  function AtLeastOne(x: u64): u64 {
    if x == 0 then 1 else x
  }

  /** Stake newly effective out of what remains of `d` after `eff`. */
  function Warming(d: Delegation, share: Share, c: ClusterStake, eff: u64): u64
    requires eff <= d.stake
  {
    AtLeastOne(share(d.stake - eff, c.activating, c.effective))
  }

  /** The warm-up loop from `epoch`, where `eff` is effective. */
  function Warmed(d: Delegation, share: Share, h: History, epoch: u64, eff: u64, target: u64): (r: u64)
    requires epoch in h && epoch < target && eff <= d.stake
    ensures r <= d.stake
    decreases target - epoch
  {
    if h[epoch].activating == 0 then eff
    else
      var eff1 := WrapAdd64(eff, Warming(d, share, h[epoch], eff));
      if eff1 >= d.stake then d.stake
      else if epoch + 1 >= target || epoch + 1 >= d.deactivationEpoch || epoch + 1 !in h then eff1
      else Warmed(d, share, h, epoch + 1, eff1, target)
  }

  function Cooling(share: Share, c: ClusterStake, eff: u64): u64 {
    AtLeastOne(share(eff, c.deactivating, c.effective))
  }

  /** The cool-down loop from `epoch`, where `eff` is effective. */
  function Cooled(share: Share, h: History, epoch: u64, eff: u64, target: u64): (r: u64)
    requires epoch in h && epoch < target
    ensures r <= eff
    decreases target - epoch
  {
    if h[epoch].deactivating == 0 then eff
    else
      var eff1 := SaturatingSub64(eff, Cooling(share, h[epoch], eff));
      if eff1 == 0 || epoch + 1 >= target || epoch + 1 !in h then eff1
      else Cooled(share, h, epoch + 1, eff1, target)
  }

  /** (effective, activating) */
  function StakeAndActivating(d: Delegation, share: Share, target: u64, history: Option<History>, fix: bool)
    : (r: (u64, u64))
    ensures r.0 + r.1 <= d.stake
  {
    if d.activationEpoch == MAX_EPOCH then (d.stake, 0)
    else if fix && d.activationEpoch == d.deactivationEpoch then (0, 0)
    else if target == d.activationEpoch then (0, d.stake)
    else if target < d.activationEpoch then (0, 0)
    else if history.Some? && d.activationEpoch in history.value then
      var eff := Warmed(d, share, history.value, d.activationEpoch, 0, target);
      (eff, d.stake - eff)
    else (d.stake, 0)
  }

  /** (effective, activating, deactivating). The parts stay within the delegation. */
  function StakeParts(d: Delegation, share: Share, target: u64, history: Option<History>, fix: bool)
    : (r: (u64, u64, u64))
    ensures r.0 + r.1 <= d.stake && r.2 <= r.0
  {
    var (eff, activating) := StakeAndActivating(d, share, target, history, fix);
    if target < d.deactivationEpoch then (eff, activating, 0)
    else if target == d.deactivationEpoch then (eff, 0, Min(eff, d.stake))
    else if history.Some? && d.deactivationEpoch in history.value then
      var left := Cooled(share, history.value, d.deactivationEpoch, eff, target);
      (left, 0, left)
    else (0, 0, 0)
  }

  /** Both loops, run as written: each iteration moves one epoch towards the target. */
  method ComputeStakeAndActivating(d: Delegation, share: Share, target: u64, history: Option<History>, fix: bool)
    returns (effective: u64, activating: u64)
    ensures (effective, activating) == StakeAndActivating(d, share, target, history, fix)
  {
    if d.activationEpoch == MAX_EPOCH {
      return d.stake, 0;
    }
    if fix && d.activationEpoch == d.deactivationEpoch {
      return 0, 0;
    }
    if target == d.activationEpoch {
      return 0, d.stake;
    }
    if target < d.activationEpoch {
      return 0, 0;
    }
    if history.None? || d.activationEpoch !in history.value {
      return d.stake, 0;
    }
    var h := history.value;
    var epoch, eff: u64 := d.activationEpoch, 0;
    ghost var spec := Warmed(d, share, h, d.activationEpoch, 0, target);
    while h[epoch].activating != 0
      invariant epoch in h && d.activationEpoch <= epoch < target && eff <= d.stake
      invariant Warmed(d, share, h, epoch, eff, target) == spec
      decreases target - epoch
    {
      var current: u64 := epoch + 1;
      var remaining := d.stake - eff;
      eff := WrapAdd64(eff, AtLeastOne(share(remaining, h[epoch].activating, h[epoch].effective)));
      if eff >= d.stake {
        eff := d.stake;
        break;
      }
      if current >= target || current >= d.deactivationEpoch || current !in h {
        break;
      }
      epoch := current;
    }
    return eff, d.stake - eff;
  }

  method ComputeStakeParts(d: Delegation, share: Share, target: u64, history: Option<History>, fix: bool)
    returns (effective: u64, activating: u64, deactivating: u64)
    ensures (effective, activating, deactivating) == StakeParts(d, share, target, history, fix)
    ensures d.activationEpoch < d.deactivationEpoch <= target ==> activating == 0 && deactivating == effective
    ensures d.activationEpoch <= target < d.deactivationEpoch && d.activationEpoch != MAX_EPOCH ==>
              activating == d.stake - effective && deactivating == 0
  {
    effective, activating := ComputeStakeAndActivating(d, share, target, history, fix);
    if target < d.deactivationEpoch {
      return effective, activating, 0;
    }
    if target == d.deactivationEpoch {
      return effective, 0, Min(effective, d.stake);
    }
    if history.None? || d.deactivationEpoch !in history.value {
      return 0, 0, 0;
    }
    var h := history.value;
    var epoch, eff := d.deactivationEpoch, effective;
    ghost var spec := Cooled(share, h, d.deactivationEpoch, effective, target);
    while h[epoch].deactivating != 0
      invariant epoch in h && d.deactivationEpoch <= epoch < target
      invariant Cooled(share, h, epoch, eff, target) == spec
      decreases target - epoch
    {
      var current: u64 := epoch + 1;
      eff := SaturatingSub64(eff, AtLeastOne(share(eff, h[epoch].deactivating, h[epoch].effective)));
      if eff == 0 || current >= target || current !in h {
        break;
      }
      epoch := current;
    }
    return eff, 0, eff;
  }

  // ---- the shape of the curve

  /** No addition of the warm-up, run up to deactivation, wraps around. */
  predicate NoWrap(d: Delegation, share: Share, h: History, epoch: u64, eff: u64)
    requires epoch in h && epoch < d.deactivationEpoch && eff <= d.stake
    decreases d.deactivationEpoch - epoch
  {
    h[epoch].activating == 0 ||
    ( && eff + Warming(d, share, h[epoch], eff) < U64_LIMIT
      && var eff1 := eff + Warming(d, share, h[epoch], eff);
         eff1 >= d.stake || epoch + 1 >= d.deactivationEpoch || epoch + 1 !in h
           || NoWrap(d, share, h, epoch + 1, eff1))
  }

  lemma {:induction false} WarmedGrows(d: Delegation, share: Share, h: History, epoch: u64, eff: u64, t: u64, t': u64)
    requires epoch in h && epoch < t <= t' <= d.deactivationEpoch && eff <= d.stake
    requires NoWrap(d, share, h, epoch, eff)
    ensures eff <= Warmed(d, share, h, epoch, eff, t) <= Warmed(d, share, h, epoch, eff, t')
    decreases t' - epoch
  {
    if h[epoch].activating != 0 {
      var eff1 := WrapAdd64(eff, Warming(d, share, h[epoch], eff));
      if eff1 < d.stake && epoch + 1 < t' && epoch + 1 in h {
        WarmedGrows(d, share, h, epoch + 1, eff1, if epoch + 1 < t then t else t', t');
      }
    }
  }

  /** Past deactivation the warm-up has stopped: its result no longer depends on the target. */
  lemma {:induction false} WarmedStops(d: Delegation, share: Share, h: History, epoch: u64, eff: u64, t: u64)
    requires epoch in h && epoch < d.deactivationEpoch <= t && eff <= d.stake
    ensures Warmed(d, share, h, epoch, eff, t) == Warmed(d, share, h, epoch, eff, d.deactivationEpoch)
    decreases d.deactivationEpoch - epoch
  {
    if h[epoch].activating != 0 {
      var eff1 := WrapAdd64(eff, Warming(d, share, h[epoch], eff));
      if eff1 < d.stake && epoch + 1 < d.deactivationEpoch && epoch + 1 in h {
        WarmedStops(d, share, h, epoch + 1, eff1, t);
      }
    }
  }

  lemma {:induction false} CooledShrinks(share: Share, h: History, epoch: u64, eff: u64, t: u64, t': u64)
    requires epoch in h && epoch < t <= t'
    ensures Cooled(share, h, epoch, eff, t') <= Cooled(share, h, epoch, eff, t)
    decreases t' - epoch
  {
    if h[epoch].deactivating != 0 {
      var eff1 := SaturatingSub64(eff, Cooling(share, h[epoch], eff));
      if eff1 != 0 && epoch + 1 < t && epoch + 1 in h {
        CooledShrinks(share, h, epoch + 1, eff1, t, t');
      }
    }
  }

  function Effective(d: Delegation, share: Share, target: u64, history: Option<History>): u64 {
    StakeParts(d, share, target, history, true).0
  }

  /** After deactivation the effective stake never rises, for any history. */
  lemma {:induction false} FallsAfterDeactivation(d: Delegation, share: Share, history: Option<History>, t: u64,
                                                  t': u64)
    requires d.activationEpoch < d.deactivationEpoch <= t <= t'
    ensures Effective(d, share, t', history) <= Effective(d, share, t, history)
  {
    if history.Some? && d.activationEpoch in history.value {
      WarmedStops(d, share, history.value, d.activationEpoch, 0, t);
      WarmedStops(d, share, history.value, d.activationEpoch, 0, t');
    }
    if history.Some? && d.deactivationEpoch in history.value && d.deactivationEpoch < t {
      var eff := StakeAndActivating(d, share, t, history, true).0;
      CooledShrinks(share, history.value, d.deactivationEpoch, eff, t, t');
    }
  }

  /** The warm-up the history prescribes, if it reaches back to activation, does not wrap. */
  predicate Steady(d: Delegation, share: Share, history: Option<History>)
    requires d.activationEpoch < d.deactivationEpoch
  {
    history.Some? && d.activationEpoch in history.value ==> NoWrap(d, share, history.value, d.activationEpoch, 0)
  }

  lemma {:induction false} RisesToDeactivation(d: Delegation, share: Share, history: Option<History>, t: u64, t': u64)
    requires d.activationEpoch < d.deactivationEpoch && t <= t' <= d.deactivationEpoch && Steady(d, share, history)
    ensures Effective(d, share, t, history) <= Effective(d, share, t', history)
  {
    if history.Some? && d.activationEpoch in history.value && d.activationEpoch < t {
      WarmedGrows(d, share, history.value, d.activationEpoch, 0, t, t');
    }
  }

  /** Where an addition wraps, the stake falls from epoch `t` to the next. */
  lemma {:induction false} WrapFalls(d: Delegation, share: Share, h: History, epoch: u64, eff: u64) returns (t: u64)
    requires epoch in h && epoch < d.deactivationEpoch && eff <= d.stake
    requires !NoWrap(d, share, h, epoch, eff)
    ensures epoch <= t < d.deactivationEpoch
    ensures Warmed(d, share, h, epoch, eff, t + 1) < if t == epoch then eff else Warmed(d, share, h, epoch, eff, t)
    ensures t == epoch ==> eff > 0
    decreases d.deactivationEpoch - epoch
  {
    if eff + Warming(d, share, h[epoch], eff) >= U64_LIMIT {
      t := epoch;
    } else {
      var eff1 := WrapAdd64(eff, Warming(d, share, h[epoch], eff));
      t := WrapFalls(d, share, h, epoch + 1, eff1);
      assert Warmed(d, share, h, epoch, eff, t + 1) == Warmed(d, share, h, epoch + 1, eff1, t + 1);
      assert t > epoch + 1 ==> Warmed(d, share, h, epoch, eff, t) == Warmed(d, share, h, epoch + 1, eff1, t);
    }
  }

  /** Up to deactivation the effective stake never falls exactly when no addition of
      the warm-up wraps. */
  lemma {:induction false} RisesIffSteady(d: Delegation, share: Share, history: Option<History>)
    requires d.activationEpoch < d.deactivationEpoch
    ensures Steady(d, share, history) <==>
              forall t: u64, t': u64 :: t <= t' <= d.deactivationEpoch ==>
                Effective(d, share, t, history) <= Effective(d, share, t', history)
  {
    if Steady(d, share, history) {
      forall t: u64, t': u64 | t <= t' <= d.deactivationEpoch
        ensures Effective(d, share, t, history) <= Effective(d, share, t', history)
      {
        RisesToDeactivation(d, share, history, t, t');
      }
    } else {
      var t := WrapFalls(d, share, history.value, d.activationEpoch, 0);
      assert Effective(d, share, t + 1, history) < Effective(d, share, t, history);
    }
  }

  /** A caller may rely on this instead: shares that, added to the whole delegation,
      still fit in 64 bits in every epoch of the history. */
  lemma {:induction false} SmallSharesAreSteady(d: Delegation, share: Share, h: History, epoch: u64, eff: u64)
    requires epoch in h && epoch < d.deactivationEpoch && eff <= d.stake
    requires forall k, p: u64 :: k in h && p <= d.stake ==>
               d.stake + AtLeastOne(share(p, h[k].activating, h[k].effective)) < U64_LIMIT
    ensures NoWrap(d, share, h, epoch, eff)
    decreases d.deactivationEpoch - epoch
  {
    if h[epoch].activating != 0 {
      var eff1 := eff + Warming(d, share, h[epoch], eff);
      if eff1 < d.stake && epoch + 1 < d.deactivationEpoch && epoch + 1 in h {
        SmallSharesAreSteady(d, share, h, epoch + 1, eff1);
      }
    }
  }

  // ---- from one epoch to the next

  /** The history has a gap, or no stake left activating, by epoch `t`. */
  ghost predicate WarmUpOver(h: History, from: u64, t: u64) {
    exists k: u64 :: from <= k <= t && (k !in h || h[k].activating == 0)
  }

  /** The history has a gap, or no stake left deactivating, by epoch `t`. */
  ghost predicate CoolDownOver(h: History, from: u64, t: u64) {
    exists k: u64 :: from <= k <= t && (k !in h || h[k].deactivating == 0)
  }

  /** One epoch's warm-up: the share of what is still to come, at least one lamport, and
      never beyond the delegation. */
  function WarmedUp(d: Delegation, share: Share, c: ClusterStake, eff: u64): u64
    requires eff <= d.stake
  {
    var sum := (eff + Max(1, share(d.stake - eff, c.activating, c.effective))) % U64_LIMIT;
    Min(sum, d.stake)
  }

  /** One epoch's cool-down: the share of what is still there, at least one lamport, never
      below zero. */
  function CooledDown(share: Share, c: ClusterStake, eff: u64): u64 {
    Max(0, eff - Max(1, share(eff, c.deactivating, c.effective)))
  }

  lemma {:induction false} WarmedNext(d: Delegation, share: Share, h: History, epoch: u64, eff: u64, t: u64)
    requires epoch in h && epoch < t < d.deactivationEpoch && eff <= d.stake
    ensures var e, e' := Warmed(d, share, h, epoch, eff, t), Warmed(d, share, h, epoch, eff, t + 1);
            if WarmUpOver(h, epoch, t) || e == d.stake then e' == e else e' == WarmedUp(d, share, h[t], e)
    decreases t - epoch
  {
    if h[epoch].activating == 0 {
      assert WarmUpOver(h, epoch, t);
    } else {
      var eff1 := WrapAdd64(eff, Warming(d, share, h[epoch], eff));
      if eff1 < d.stake && epoch + 1 in h {
        if epoch + 1 < t {
          WarmedNext(d, share, h, epoch + 1, eff1, t);
          assert WarmUpOver(h, epoch, t) <==> WarmUpOver(h, epoch + 1, t);
        } else {
          WrapsModulo(eff1, Warming(d, share, h[t], eff1));
          assert h[t].activating == 0 <==> WarmUpOver(h, epoch, t);
        }
      } else if eff1 < d.stake {
        assert WarmUpOver(h, epoch, t);
      }
    }
  }

  lemma {:induction false} CooledNext(share: Share, h: History, epoch: u64, eff: u64, t: u64)
    requires epoch in h && epoch < t < MAX_EPOCH
    ensures var e, e' := Cooled(share, h, epoch, eff, t), Cooled(share, h, epoch, eff, t + 1);
            if CoolDownOver(h, epoch, t) then e' == e else e' == CooledDown(share, h[t], e)
    decreases t - epoch
  {
    if h[epoch].deactivating == 0 {
      assert CoolDownOver(h, epoch, t);
    } else {
      var eff1 := SaturatingSub64(eff, Cooling(share, h[epoch], eff));
      if eff1 != 0 && epoch + 1 in h {
        if epoch + 1 < t {
          CooledNext(share, h, epoch + 1, eff1, t);
          assert CoolDownOver(h, epoch, t) <==> CoolDownOver(h, epoch + 1, t);
        } else {
          assert h[t].deactivating == 0 <==> CoolDownOver(h, epoch, t);
        }
      } else if eff1 != 0 {
        assert CoolDownOver(h, epoch, t);
      }
    }
  }

  /** Warming up, epoch by epoch, for any history: from nothing at activation each epoch adds
      its share until the delegation is reached or the history has no more to say; without
      a history back to activation all is effective at once. */
  lemma {:induction false} RisesBy(d: Delegation, share: Share, history: Option<History>, t: u64)
    requires d.activationEpoch <= t < d.deactivationEpoch
    ensures Effective(d, share, d.activationEpoch, history) == 0
    ensures var e, e' := Effective(d, share, t, history), Effective(d, share, t + 1, history);
            if history.None? || d.activationEpoch !in history.value then e' == d.stake
            else if WarmUpOver(history.value, d.activationEpoch, t) || e == d.stake then e' == e
            else e' == WarmedUp(d, share, history.value[t], e)
  {
    if history.Some? && d.activationEpoch in history.value {
      var h := history.value;
      if d.activationEpoch < t {
        WarmedNext(d, share, h, d.activationEpoch, 0, t);
      } else {
        WrapsModulo(0, Warming(d, share, h[t], 0));
        assert h[t].activating == 0 <==> WarmUpOver(h, t, t);
      }
    }
  }

  /** Cooling down, epoch by epoch, for any history: each epoch takes its share until nothing is
      left or the history has no more to say; without a history back to deactivation nothing
      is effective any more. */
  lemma {:induction false} FallsBy(d: Delegation, share: Share, history: Option<History>, t: u64)
    requires d.activationEpoch < d.deactivationEpoch <= t < MAX_EPOCH
    ensures var e, e' := Effective(d, share, t, history), Effective(d, share, t + 1, history);
            if history.None? || d.deactivationEpoch !in history.value then e' == 0
            else if CoolDownOver(history.value, d.deactivationEpoch, t) then e' == e
            else e' == CooledDown(share, history.value[t], e)
  {
    if history.Some? && d.activationEpoch in history.value {
      WarmedStops(d, share, history.value, d.activationEpoch, 0, t);
      WarmedStops(d, share, history.value, d.activationEpoch, 0, t + 1);
    }
    if history.Some? && d.deactivationEpoch in history.value {
      var h := history.value;
      var eff := StakeAndActivating(d, share, t, history, true).0;
      assert eff == StakeAndActivating(d, share, t + 1, history, true).0;
      if d.deactivationEpoch < t {
        CooledNext(share, h, d.deactivationEpoch, eff, t);
      } else {
        assert h[t].deactivating == 0 <==> CoolDownOver(h, t, t);
      }
    }
  }

  /** The other parts: before activation there is nothing, at activation all is activating,
      then what is not yet effective is; from deactivation on what is effective is
      deactivating. */
  lemma {:induction false} PartsExactly(d: Delegation, share: Share, t: u64, history: Option<History>)
    requires d.activationEpoch < d.deactivationEpoch
    ensures var (effective, activating, deactivating) := StakeParts(d, share, t, history, true);
            && (t < d.activationEpoch ==> effective == 0 && activating == 0)
            && (d.activationEpoch <= t < d.deactivationEpoch ==> activating == d.stake - effective)
            && (t < d.deactivationEpoch ==> deactivating == 0)
            && (d.deactivationEpoch <= t ==> activating == 0 && deactivating == effective)
  {
  }

  /** The special cases: a stake there from the start is effective until deactivated; with
      the fix one deactivated as it was activated never is; and the fix changes nothing else. */
  lemma {:induction false} SpecialParts(d: Delegation, share: Share, t: u64, history: Option<History>, fix: bool)
    ensures d.activationEpoch == MAX_EPOCH && t <= d.deactivationEpoch ==>
              StakeParts(d, share, t, history, fix) == (d.stake, 0, if t == d.deactivationEpoch then d.stake else 0)
    ensures d.activationEpoch == d.deactivationEpoch != MAX_EPOCH ==>
              StakeParts(d, share, t, history, true) == (0, 0, 0)
    ensures d.activationEpoch != d.deactivationEpoch ==>
              StakeParts(d, share, t, history, true) == StakeParts(d, share, t, history, false)
  {
    if history.Some? && d.deactivationEpoch in history.value && d.deactivationEpoch < t {
      CooledNothing(share, history.value, d.deactivationEpoch, t);
    }
  }

  lemma {:induction false} CooledNothing(share: Share, h: History, epoch: u64, t: u64)
    requires epoch in h && epoch < t
    ensures Cooled(share, h, epoch, 0, t) == 0
  {
  }

  /** While the cool-down lasts at least one lamport goes each epoch, so it is over after as
      many epochs as there are lamports. */
  lemma {:induction false} CoolsToZero(d: Delegation, share: Share, h: History, n: nat)
    requires d.activationEpoch < d.deactivationEpoch && d.deactivationEpoch + n <= MAX_EPOCH
    requires n > 0 ==> !CoolDownOver(h, d.deactivationEpoch, d.deactivationEpoch + n - 1)
    ensures Effective(d, share, d.deactivationEpoch + n, Some(h)) <= Max(0, d.stake - n)
    decreases n
  {
    if n > 0 {
      var t := d.deactivationEpoch + n - 1;
      if n > 1 {
        assert !CoolDownOver(h, d.deactivationEpoch, t - 1);
      }
      CoolsToZero(d, share, h, n - 1);
      assert d.deactivationEpoch in h;
      FallsBy(d, share, Some(h), t);
    }
  }

  // ---- the entitlement of the source at its default rate of one quarter

  /** A `portion` of `pending` stake is entitled to that part of a quarter of the cluster's
      effective stake, rounded down, and saturates when converted to 64 bits. */
  function Entitlement(portion: u64, pending: u64, effective: u64): u64 {
    if pending == 0 then 0
    else
      Floor(portion * effective, 4 * pending);
      Min(MAX_EPOCH, portion * effective / (4 * pending))
  }

  lemma {:induction false} Floor(n: int, c: nat)
    requires c > 0 && n >= 0
    ensures 0 <= n / c && n / c * c <= n
  {
    assert n == n / c * c + n % c;
  }

  lemma {:induction false} QuarterAtMost(q: nat, p: nat, a: nat, e: nat)
    requires 0 < a && p <= a && q * (4 * a) <= p * e
    ensures 4 * q <= e
  {
    assert p * e <= a * e;
    assert q * (4 * a) == 4 * q * a && a * e == e * a;
  }

  /** A portion of what is pending is entitled to no more than a quarter. */
  lemma {:induction false} EntitlementWithin(portion: u64, pending: u64, effective: u64)
    requires portion <= pending
    ensures 4 * Entitlement(portion, pending, effective) <= effective
  {
    if pending > 0 {
      Floor(portion * effective, 4 * pending);
      QuarterAtMost(portion * effective / (4 * pending), portion, pending, effective);
    }
  }

  lemma {:induction false} QuarterAtLeast(q: nat, p: nat, a: nat, e: nat)
    requires 4 * q <= p && a <= e
    ensures q * (4 * a) <= p * e
  {
    assert q * (4 * a) == 4 * q * a;
    TimesGrows(4 * q, p, a);
    TimesGrows(a, e, p);
    assert p * a == a * p && p * e == e * p;
  }

  /** When no more is pending than is effective, any portion is entitled to its quarter. */
  lemma {:induction false} EntitlementAtLeast(portion: u64, pending: u64, effective: u64)
    requires 0 < pending <= effective
    ensures Entitlement(portion, pending, effective) >= portion / 4
  {
    QuarterAtLeast(portion / 4, portion, pending, effective);
    FloorAtLeast(portion * effective, 4 * pending, portion / 4);
  }

  lemma {:induction false} FloorAtLeast(n: nat, c: nat, q: nat)
    requires c > 0 && q * c <= n
    ensures q <= n / c
  {
    assert n == n / c * c + n % c;
    if q > n / c {
      TimesGrows(n / c + 1, q, c);
    }
  }

  lemma {:induction false} TimesGrows(a: int, b: int, c: nat)
    requires a <= b
    ensures a * c <= b * c
  {
  }

  /** With it, each epoch of the cool-down takes, of a stake that pending stake includes, no
      more than a quarter of the cluster's; and when no more is pending than is effective, a
      quarter of the stake, rounded down. */
  lemma {:induction false} FallsByAQuarter(d: Delegation, h: History, t: u64)
    requires d.activationEpoch < d.deactivationEpoch <= t < MAX_EPOCH && !CoolDownOver(h, d.deactivationEpoch, t)
    ensures var e, e' := Effective(d, Entitlement, t, Some(h)), Effective(d, Entitlement, t + 1, Some(h));
            && t in h
            && (e <= h[t].deactivating ==> e - e' <= Max(1, h[t].effective / 4))
            && (h[t].deactivating <= h[t].effective ==> e - e' >= e / 4)
  {
    assert t in h && h[t].deactivating > 0 && d.deactivationEpoch in h;
    var e := Effective(d, Entitlement, t, Some(h));
    FallsBy(d, Entitlement, Some(h), t);
    if e <= h[t].deactivating {
      EntitlementWithin(e, h[t].deactivating, h[t].effective);
    }
    if h[t].deactivating <= h[t].effective {
      EntitlementAtLeast(e, h[t].deactivating, h[t].effective);
    }
  }

  /** With this entitlement the effective stake never falls up to deactivation in a history
      whose pending stake, where there is any, includes the delegation, if the delegation
      and a quarter of the cluster's stake fit in 64 bits. */
  lemma {:induction false} IncludedStakesAreSteady(d: Delegation, h: History)
    requires d.activationEpoch < d.deactivationEpoch
    requires forall k :: k in h ==>
               (h[k].activating == 0 || d.stake <= h[k].activating) && 4 * d.stake + h[k].effective + 4 < 4 * U64_LIMIT
    ensures Steady(d, Entitlement, Some(h))
  {
    hide NoWrap;
    if d.activationEpoch in h {
      forall k, p: u64 | k in h && p <= d.stake
        ensures d.stake + AtLeastOne(Entitlement(p, h[k].activating, h[k].effective)) < U64_LIMIT
      {
        if h[k].activating > 0 {
          EntitlementWithin(p, h[k].activating, h[k].effective);
        }
      }
      SmallSharesAreSteady(d, Entitlement, h, d.activationEpoch, 0);
    }
  }

  /** But a history in which it saturates in the second epoch makes the effective stake
      fall from 5 to 4 while still warming up. */
  lemma {:induction false} SaturatedShareFalls()
    ensures var d := Delegation(100, 0, 10);
            var history := Some(map[0 := ClusterStake(20, 100, 0), 1 := ClusterStake(0x8000_0000_0000_0000, 1, 0)]);
            && Effective(d, Entitlement, 1, history) == 5
            && Effective(d, Entitlement, 2, history) == 4
            && !Steady(d, Entitlement, history)
  {
    var d := Delegation(100, 0, 10);
    var h: History := map[0 := ClusterStake(20, 100, 0), 1 := ClusterStake(0x8000_0000_0000_0000, 1, 0)];
    assert Entitlement(100, 100, 20) == 5;
    assert Entitlement(95, 1, 0x8000_0000_0000_0000) == MAX_EPOCH;
    assert Warmed(d, Entitlement, h, 0, 0, 1) == 5;
    assert Warmed(d, Entitlement, h, 1, 5, 2) == 4;
    assert Warmed(d, Entitlement, h, 0, 0, 2) == 4;
    if Steady(d, Entitlement, Some(h)) {
      RisesToDeactivation(d, Entitlement, Some(h), 1, 2);
    }
  }
}
