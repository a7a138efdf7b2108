/** The client's payment batch. */
module PaymentOutcomes {
  import opened Machine
  import opened Data
  import opened Ledger
  import opened Invariants
  import opened Credits

  /** How many creditors the client passes accounts for; no limit if `maxCount` is not positive. */
  function Passed(maxCount: int, queue: seq<CreditRecord>): nat {
    if maxCount <= 0 then |queue| else Min(maxCount, |queue|)
  }

  method PayKeys(maxCount: int, queue: seq<CreditRecord>) returns (keys: seq<Pubkey>)
    ensures |keys| == Passed(maxCount, queue)
    ensures forall i :: 0 <= i < |keys| ==> keys[i] == queue[i].solTarget
  {
    keys := [];
    var i := 0;
    while (maxCount <= 0 || i < maxCount) && i < |queue|
      invariant 0 <= i == |keys| <= Passed(maxCount, queue)
      invariant forall j :: 0 <= j < i ==> keys[j] == queue[j].solTarget
    {
      keys := keys + [queue[i].solTarget];
      i := i + 1;
    }
  }

  /** A limited batch loses a creditor whenever it can afford everybody it passed: exactly
      the first one past the limit. Without a limit, or stopped for lack of funds, it
      loses nobody. */
  lemma {:induction false} ClientBatchOutcome(s: State, users: seq<UserInfo>, maxCount: int, rent: Rent)
    returns (paid: seq<CreditRecord>)
    requires PayCreditors(s, users, rent).Ok? && |users| == Passed(maxCount, s.credits)
    ensures var s' := PayCreditors(s, users, rent).value;
            && s.bank.escrow - s'.bank.escrow == CreditSum(paid)
            && multiset(s.credits) == multiset(paid) + multiset(s'.credits)
                 + (if 0 < maxCount < |s.credits| && Payments(s, users, maxCount) <= Spendable(s, rent)
                    then multiset{s.credits[maxCount]} else multiset{})
  {
    hide PayCreditors, Payments, PaidOf, Spendable, BatchTotal, Disciplined;
    var m := QueueDiscipline(s, users, rent);
    paid := PaidOf(users, s.credits, m);
    Accounted(users, s.credits, m, PayCreditors(s, users, rent).value.credits);
    if m < |users| {
      PaymentsGrow(s, users, m + 1, |users|);
    }
  }

  lemma {:induction false} Accounted(users: seq<UserInfo>, queue: seq<CreditRecord>, m: nat, queue': seq<CreditRecord>)
    requires m <= |users| && m <= |queue| && Disciplined(users, queue, m, queue')
    ensures multiset(queue) == multiset(PaidOf(users, queue, m)) + multiset(queue')
              + (if m == |users| < |queue| then multiset{queue[m]} else multiset{})
  {
    hide PaidOf, SkippedOf;
  }

  // ---- batch after batch

  const BATCH := 30

  /** The accounts of one batch; `usable` says which belong to the system program. */
  function BatchUsers(queue: seq<CreditRecord>, usable: Pubkey -> bool): seq<UserInfo> {
    seq(Passed(BATCH, queue), i requires 0 <= i < Passed(BATCH, queue) =>
      UserInfo(queue[i].solTarget, usable(queue[i].solTarget)))
  }

  /** No batch lengthens the queue. */
  lemma {:induction false} NeverLonger(s: State, users: seq<UserInfo>, rent: Rent)
    requires PayCreditors(s, users, rent).Ok?
    ensures |PayCreditors(s, users, rent).value.credits| <= |s.credits|
  {
    hide PayCreditors;
    var m := QueueDiscipline(s, users, rent);
    SkippedWithin(users, s.credits, m);
  }

  lemma {:induction false} SkippedWithin(users: seq<UserInfo>, queue: seq<CreditRecord>, m: nat)
    requires m <= |users| && m <= |queue|
    ensures |SkippedOf(users, queue, m)| <= m
  {
    if m > 0 {
      SkippedWithin(users[1..], queue[1..], m - 1);
    }
  }

  /** The client pays batch after batch until the queue is empty or as long as before. */
  function PayAll(s: State, usable: Pubkey -> bool, rent: Rent): Result<State, Error>
    decreases |s.credits|
  {
    if s.credits == [] then Ok(s)
    else
      var s1 :- PayCreditors(s, BatchUsers(s.credits, usable), rent);
      NeverLonger(s, BatchUsers(s.credits, usable), rent);
      if |s1.credits| == |s.credits| then Ok(s1) else PayAll(s1, usable, rent)
  }

  /** Its loop ends after at most as many batches as there are creditors. */
  method PayAllCreditors(start: State, usable: Pubkey -> bool, rent: Rent) returns (r: Result<State, Error>)
    ensures r == PayAll(start, usable, rent)
  {
    hide PayCreditors;
    var s := start;
    while |s.credits| > 0
      invariant PayAll(start, usable, rent) == PayAll(s, usable, rent)
      decreases |s.credits|
    {
      var oldLength := |s.credits|;
      var paid := PayCreditors(s, BatchUsers(s.credits, usable), rent);
      if paid.Err? {
        return Err(paid.error);
      }
      NeverLonger(s, BatchUsers(s.credits, usable), rent);
      s := paid.value;
      if |s.credits| == oldLength {
        return Ok(s);
      }
    }
    return Ok(s);
  }

  /** Every creditor a batch does not pass but still pulls off the queue. */
  function Overlooked(queue: seq<CreditRecord>): seq<CreditRecord>
    decreases |queue|
  {
    if |queue| <= BATCH then [] else [queue[BATCH]] + Overlooked(queue[BATCH + 1..])
  }

  /** The others. */
  function Served(queue: seq<CreditRecord>): seq<CreditRecord>
    decreases |queue|
  {
    if |queue| <= BATCH then queue else queue[..BATCH] + Served(queue[BATCH + 1..])
  }

  lemma {:induction false} OverlookedCount(queue: seq<CreditRecord>)
    ensures |Overlooked(queue)| == |queue| / (BATCH + 1)
    ensures multiset(queue) == multiset(Served(queue)) + multiset(Overlooked(queue))
    decreases |queue|
  {
    if |queue| > BATCH {
      OverlookedCount(queue[BATCH + 1..]);
      assert queue == queue[..BATCH] + [queue[BATCH]] + queue[BATCH + 1..];
    }
  }

  /** Every batch commits and the reserve can pay everybody it passes. */
  predicate AllAfforded(s: State, usable: Pubkey -> bool, rent: Rent)
    decreases |s.credits|
  {
    s.credits != [] ==>
      var users := BatchUsers(s.credits, usable);
      && PayCreditors(s, users, rent).Ok?
      && Payments(s, users, |users|) <= Spendable(s, rent)
      && var s1 := PayCreditors(s, users, rent).value;
         |s1.credits| < |s.credits| ==> AllAfforded(s1, usable, rent)
  }

  lemma {:induction false} AllUsable(users: seq<UserInfo>, queue: seq<CreditRecord>, m: nat)
    requires m <= |users| && m <= |queue| && (forall i :: 0 <= i < m ==> users[i].systemOwned)
    ensures PaidOf(users, queue, m) == queue[..m] && SkippedOf(users, queue, m) == []
  {
    if m > 0 {
      AllUsable(users[1..], queue[1..], m - 1);
      assert queue[..m] == [queue[0]] + queue[1..][..m - 1];
    }
  }

  /** One affordable batch of usable accounts. */
  lemma {:induction false} AffordedBatch(s: State, usable: Pubkey -> bool, rent: Rent)
    requires s.credits != [] && AllAfforded(s, usable, rent)
    requires forall i :: 0 <= i < |s.credits| ==> usable(s.credits[i].solTarget)
    ensures var s1 := PayCreditors(s, BatchUsers(s.credits, usable), rent).value;
            && s1.credits == (if |s.credits| <= BATCH then [] else s.credits[BATCH + 1..])
            && s.bank.escrow - s1.bank.escrow == CreditSum(s.credits[..Passed(BATCH, s.credits)])
  {
    hide PayCreditors, Payments, Spendable, BatchTotal, PaidOf, SkippedOf, AllAfforded;
    var users := BatchUsers(s.credits, usable);
    assert PayCreditors(s, users, rent).Ok? && Payments(s, users, |users|) <= Spendable(s, rent) by {
      AffordedNow(s, usable, rent);
    }
    var m := QueueDiscipline(s, users, rent);
    if m < |users| {
      PaymentsGrow(s, users, m + 1, |users|);
    }
    AllUsable(users, s.credits, m);
  }

  lemma {:induction false} AffordedNow(s: State, usable: Pubkey -> bool, rent: Rent)
    requires s.credits != [] && AllAfforded(s, usable, rent)
    ensures var users := BatchUsers(s.credits, usable);
            PayCreditors(s, users, rent).Ok? && Payments(s, users, |users|) <= Spendable(s, rent)
  {
  }

  /** With usable accounts and enough reserve, paying everybody empties the queue, and of
      every 31 creditors it pays 30: the tokens of the others stay in escrow, with no
      record left to claim them. */
  lemma {:induction false} PayAllOutcome(s: State, usable: Pubkey -> bool, rent: Rent)
    requires AllAfforded(s, usable, rent)
    requires forall i :: 0 <= i < |s.credits| ==> usable(s.credits[i].solTarget)
    ensures PayAll(s, usable, rent).Ok?
    ensures var s' := PayAll(s, usable, rent).value;
            && s'.credits == []
            && s.bank.escrow - s'.bank.escrow == CreditSum(Served(s.credits))
            && multiset(s.credits) == multiset(Served(s.credits)) + multiset(Overlooked(s.credits))
            && |Overlooked(s.credits)| == |s.credits| / 31
    decreases |s.credits|
  {
    hide PayCreditors, Payments, Spendable;
    OverlookedCount(s.credits);
    if s.credits != [] {
      var s1 := PayCreditors(s, BatchUsers(s.credits, usable), rent).value;
      AffordedBatch(s, usable, rent);
      PayAllOutcome(s1, usable, rent);
      if |s.credits| <= BATCH {
        assert s.credits[..Passed(BATCH, s.credits)] == s.credits;
      } else {
        CreditSumConcat(s.credits[..BATCH], Served(s1.credits));
      }
    }
  }
}
