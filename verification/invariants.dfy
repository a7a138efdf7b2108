/** What holds between transactions. */
module Invariants {
  import opened Machine
  import opened Data
  import opened Ledger

  /** Lamports the pool can account for. */
  function Assets(s: State): nat {
    s.bank.reserve + Listed(s.validators, s.bank.accounts)
  }

  /** All lamports on the chain; the runtime keeps this sum in 64 bits. */
  function Capital(s: State): nat {
    Assets(s) + s.bank.outside
  }

  function Supply(s: State): nat {
    s.bank.circulating + s.bank.escrow
  }

  function CreditSum(credits: seq<CreditRecord>): nat {
    if credits == [] then 0 else credits[0].tokenAmount + CreditSum(credits[1..])
  }

  ghost predicate DistinctTargets(credits: seq<CreditRecord>) {
    forall i, j :: 0 <= i < j < |credits| ==> credits[i].solTarget != credits[j].solTarget
  }

  ghost predicate QueueOk(credits: seq<CreditRecord>, escrow: nat) {
    && DistinctTargets(credits)
    && |credits| <= MAX_CREDIT_RECORDS
    && (forall i :: 0 <= i < |credits| ==> credits[i].tokenAmount > 0)
    && CreditSum(credits) <= escrow
  }

  /** The stake accounts: none is stranded, every cached balance is covered, and all
      lamports fit in 64 bits. */
  ghost predicate StakesOk(s: State) {
    && Book(s.validators, s.bank.accounts)
    && |s.validators| <= MAX_VALIDATORS
    && Covered(s.validators, s.bank.accounts)
    && Capital(s) < U64_LIMIT
  }

  ghost predicate Queued(s: State) {
    QueueOk(s.credits, s.bank.escrow)
  }

  ghost predicate ClockOk(s: State) {
    && s.pool.lastUpdateEpoch <= s.bank.epoch
    && (forall k :: 0 <= k < |s.validators| ==> s.validators[k].lastUpdateEpoch <= s.bank.epoch)
  }

  ghost predicate FeeOk(s: State) {
    s.pool.fee.numerator <= s.pool.fee.denominator
  }

  ghost predicate SupplyOk(s: State) {
    Supply(s) <= s.pool.poolTotal
  }

  /** The recorded stake is there. */
  ghost predicate Backed(s: State) {
    s.pool.stakeTotal <= Assets(s)
  }

  /** The pool is in order. */
  ghost predicate Inv(s: State) {
    StakesOk(s) && Queued(s) && ClockOk(s) && FeeOk(s) && SupplyOk(s) && Backed(s)
  }

  /** A step that leaves the stake accounts alone and only moves lamports between the
      reserve and the outside keeps the stakes in order. */
  lemma {:induction false} StakesUntouched(s: State, s': State)
    requires s'.validators == s.validators && s'.bank.accounts == s.bank.accounts
    requires s'.bank.reserve + s'.bank.outside == s.bank.reserve + s.bank.outside
    ensures Capital(s') == Capital(s) && (StakesOk(s) ==> StakesOk(s'))
  {
    assert Listed(s'.validators, s'.bank.accounts) == Listed(s.validators, s.bank.accounts);
  }
}
