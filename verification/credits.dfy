/** Delayed withdrawals: tokens wait in escrow in a first-in first-out queue. */
module Credits {
  import opened Machine
  import opened Data
  import opened Ledger
  import opened Pricing
  import opened Invariants

  function Credit(s: State, amount: u64, target: Pubkey, authority: Pubkey, systemTarget: bool): Result<State, Error> {
    var bank := s.bank;
    if amount == 0 then Err(InvalidArgument)
    else if !systemTarget then Err(IncorrectProgramId)
    else
      var credits :- Enqueued(s.credits, amount, target, authority);
      if amount > bank.circulating || bank.escrow + amount >= U64_LIMIT then Err(TokenFailure)
      else Ok(s.(credits := credits,
                 bank := bank.(circulating := bank.circulating - amount, escrow := bank.escrow + amount)))
  }

  function Enqueued(credits: seq<CreditRecord>, amount: u64, target: Pubkey, authority: Pubkey)
    : Result<seq<CreditRecord>, Error>
  {
    match FindCredit(credits, target)
    case Some(k) =>
      if authority != credits[k].cancelAuthority then Err(InvalidArgument)
      else Ok(credits[k := credits[k].(tokenAmount := WrapAdd64(credits[k].tokenAmount, amount))])
    case None =>
      if |credits| >= MAX_CREDIT_RECORDS then Err(CreditListOverflow)
      else Ok(credits + [CreditRecord(target, authority, amount)])
  }

  function Uncredit(s: State, amount: u64, target: Pubkey, authority: Pubkey, signed: bool): Result<State, Error> {
    var bank := s.bank;
    match FindCredit(s.credits, target)
    case None => Err(UnknownCreditor)
    case Some(k) =>
      var credit := s.credits[k];
      if authority != credit.cancelAuthority then Err(InvalidArgument)
      else if !signed then Err(MissingRequiredSignature)
      else if amount > credit.tokenAmount then Err(InsufficientFunds)
      else if amount > bank.escrow || bank.circulating + amount >= U64_LIMIT then Err(TokenFailure)
      else Ok(s.(credits := Reduced(s.credits, k, amount),
                 bank := bank.(circulating := bank.circulating + amount, escrow := bank.escrow - amount)))
  }

  function Reduced(credits: seq<CreditRecord>, k: nat, amount: u64): seq<CreditRecord>
    requires k < |credits| && amount <= credits[k].tokenAmount
  {
    if amount == credits[k].tokenAmount then Retain(credits, credits[k].solTarget)
    else credits[k := credits[k].(tokenAmount := credits[k].tokenAmount - amount)]
  }

  /** The queue without any record of this target. */
  function Retain(credits: seq<CreditRecord>, target: Pubkey): seq<CreditRecord> {
    if credits == [] then []
    else (if credits[0].solTarget == target then [] else [credits[0]]) + Retain(credits[1..], target)
  }

  // ---- sums over the queue

  lemma {:induction false} CreditSumConcat(a: seq<CreditRecord>, b: seq<CreditRecord>)
    ensures CreditSum(a + b) == CreditSum(a) + CreditSum(b)
  {
    if a == [] {
      assert a + b == b;
    } else {
      assert (a + b)[1..] == a[1..] + b;
      CreditSumConcat(a[1..], b);
    }
  }

  lemma {:induction false} CreditSumSplit(credits: seq<CreditRecord>, k: nat)
    requires k < |credits|
    ensures CreditSum(credits) == CreditSum(credits[..k]) + credits[k].tokenAmount + CreditSum(credits[k + 1..])
  {
    assert credits == credits[..k] + credits[k..];
    CreditSumConcat(credits[..k], credits[k..]);
    assert credits[k..][1..] == credits[k + 1..];
  }

  lemma {:induction false} CreditSumReplace(credits: seq<CreditRecord>, k: nat, c: CreditRecord)
    requires k < |credits|
    ensures CreditSum(credits[k := c]) == CreditSum(credits) - credits[k].tokenAmount + c.tokenAmount
  {
    CreditSumSplit(credits, k);
    CreditSumSplit(credits[k := c], k);
    assert credits[k := c][..k] == credits[..k];
    assert credits[k := c][k + 1..] == credits[k + 1..];
  }

  lemma {:induction false} RetainAbsent(credits: seq<CreditRecord>, target: Pubkey)
    requires forall i :: 0 <= i < |credits| ==> credits[i].solTarget != target
    ensures Retain(credits, target) == credits
  {
    if credits != [] {
      RetainAbsent(credits[1..], target);
    }
  }

  /** With distinct targets a full uncredit removes exactly one record. */
  lemma {:induction false} RetainRemovesOne(credits: seq<CreditRecord>, k: nat)
    requires DistinctTargets(credits) && k < |credits|
    ensures Retain(credits, credits[k].solTarget) == credits[..k] + credits[k + 1..]
  {
    if k == 0 {
      RetainAbsent(credits[1..], credits[0].solTarget);
    } else {
      RetainRemovesOne(credits[1..], k - 1);
      assert credits[..k] == [credits[0]] + credits[1..][..k - 1];
    }
  }

  /** Exactly one record, of this target and authority, changes or is new, and it grows by
      `amount`. */
  ghost predicate GrowsAt(before: seq<CreditRecord>, after: seq<CreditRecord>, k: nat, target: Pubkey,
                          authority: Pubkey, amount: nat)
  {
    && k < |after| && k <= |before| <= |after| <= |before| + 1 && (|before| < |after| <==> k == |before|)
    && after[k].solTarget == target && after[k].cancelAuthority == authority
    && after[k].tokenAmount == amount + (if k < |before| then before[k].tokenAmount else 0)
    && (forall i :: 0 <= i < |before| && i != k ==> after[i] == before[i])
    && (k < |before| ==> before[k].solTarget == target && before[k].cancelAuthority == after[k].cancelAuthority)
  }

  lemma {:induction false} EnqueuedOk(credits: seq<CreditRecord>, escrow: nat, amount: u64, target: Pubkey,
                                      authority: Pubkey)
    returns (k: nat)
    requires QueueOk(credits, escrow) && Enqueued(credits, amount, target, authority).Ok?
    requires 0 < amount && escrow + amount < U64_LIMIT
    ensures var after := Enqueued(credits, amount, target, authority).value;
            && GrowsAt(credits, after, k, target, authority, amount)
            && CreditSum(after) == CreditSum(credits) + amount
            && QueueOk(after, escrow + amount)
  {
    var after := Enqueued(credits, amount, target, authority).value;
    match FindCredit(credits, target)
    case Some(i) =>
      k := i;
      CreditSumSplit(credits, k);
      CreditSumReplace(credits, k, after[k]);
    case None =>
      k := |credits|;
      CreditSumConcat(credits, [CreditRecord(target, authority, amount)]);
  }

  /** Crediting keeps the escrow in order, changes the one record of its target, and
      the amount it stores never wraps. */
  lemma {:induction false} CreditKeeps(s: State, amount: u64, target: Pubkey, authority: Pubkey, systemTarget: bool)
    returns (k: nat)
    requires Queued(s) && Credit(s, amount, target, authority, systemTarget).Ok?
    ensures var s' := Credit(s, amount, target, authority, systemTarget).value;
            && Queued(s') && (Inv(s) ==> Inv(s'))
            && Supply(s') == Supply(s)
            && Capital(s') == Capital(s) && s'.bank.reserve == s.bank.reserve
            && CreditSum(s'.credits) == CreditSum(s.credits) + amount
            && GrowsAt(s.credits, s'.credits, k, target, authority, amount)
            && Escrowed(s, amount, s')
  {
    k := EnqueuedOk(s.credits, s.bank.escrow, amount, target, authority);
    StakesUntouched(s, Credit(s, amount, target, authority, systemTarget).value);
  }

  /** `amount` tokens move into escrow, or out of it if negative; of all else only the
      queue changes. */
  ghost predicate Escrowed(s: State, amount: int, s': State) {
    && s'.bank.escrow == s.bank.escrow + amount
    && s'.bank.circulating == s.bank.circulating - amount
    && s' == s.(credits := s'.credits,
                bank := s.bank.(circulating := s'.bank.circulating, escrow := s'.bank.escrow))
  }

  /** A credit commits exactly for a positive amount that is there and fits, to a system
      account, by the authority of its record, or with room for a new one. */
  lemma {:induction false} CreditCommits(s: State, amount: u64, target: Pubkey, authority: Pubkey, systemTarget: bool)
    requires DistinctTargets(s.credits)
    ensures Credit(s, amount, target, authority, systemTarget).Ok? <==>
              && systemTarget && 0 < amount <= s.bank.circulating && s.bank.escrow + amount < U64_LIMIT
              && (forall i :: 0 <= i < |s.credits| && s.credits[i].solTarget == target ==>
                    s.credits[i].cancelAuthority == authority)
              && ( || |s.credits| < MAX_CREDIT_RECORDS
                   || exists i :: 0 <= i < |s.credits| && s.credits[i].solTarget == target)
  {
  }

  /** With the queue in order an uncredit commits exactly when its authority signed and the
      target's record holds the amount. */
  lemma {:induction false} UncreditCommits(s: State, amount: u64, target: Pubkey, authority: Pubkey, signed: bool)
    requires Queued(s) && Supply(s) < U64_LIMIT
    ensures Uncredit(s, amount, target, authority, signed).Ok? <==>
              signed && exists i :: 0 <= i < |s.credits| && s.credits[i].solTarget == target
                          && s.credits[i].cancelAuthority == authority && amount <= s.credits[i].tokenAmount
  {
    UncreditKeeps(s, amount, target, authority, signed);
    if i :| 0 <= i < |s.credits| && s.credits[i].solTarget == target
            && s.credits[i].cancelAuthority == authority && amount <= s.credits[i].tokenAmount {
      assert FindCredit(s.credits, target) == Some(i);
    }
  }

  lemma {:induction false} RemovedOk(credits: seq<CreditRecord>, escrow: nat, k: nat)
    requires QueueOk(credits, escrow) && k < |credits|
    ensures var rest := credits[..k] + credits[k + 1..];
            && CreditSum(rest) + credits[k].tokenAmount == CreditSum(credits) <= escrow
            && QueueOk(rest, escrow - credits[k].tokenAmount)
  {
    CreditSumSplit(credits, k);
    CreditSumConcat(credits[..k], credits[k + 1..]);
  }

  lemma {:induction false} ReducedOk(credits: seq<CreditRecord>, escrow: nat, k: nat, amount: u64)
    requires QueueOk(credits, escrow) && k < |credits| && amount <= credits[k].tokenAmount
    ensures amount <= escrow
    ensures QueueOk(Reduced(credits, k, amount), escrow - amount)
    ensures CreditSum(Reduced(credits, k, amount)) + amount == CreditSum(credits)
    ensures amount == credits[k].tokenAmount ==> Reduced(credits, k, amount) == credits[..k] + credits[k + 1..]
  {
    CreditSumSplit(credits, k);
    if amount == credits[k].tokenAmount {
      RetainRemovesOne(credits, k);
      RemovedOk(credits, escrow, k);
    } else {
      CreditSumReplace(credits, k, credits[k].(tokenAmount := credits[k].tokenAmount - amount));
    }
  }

  /** Uncrediting returns exactly what leaves the queue, and is refused only for
      reasons the caller controls: the escrow never lacks the tokens. */
  lemma {:induction false} UncreditKeeps(s: State, amount: u64, target: Pubkey, authority: Pubkey, signed: bool)
    requires Queued(s)
    ensures Supply(s) < U64_LIMIT ==> Uncredit(s, amount, target, authority, signed) != Err(TokenFailure)
    ensures Uncredit(s, amount, target, authority, signed).Ok? ==>
              var s' := Uncredit(s, amount, target, authority, signed).value;
              && Queued(s') && (Inv(s) ==> Inv(s'))
              && Supply(s') == Supply(s)
              && Capital(s') == Capital(s) && s'.bank.reserve == s.bank.reserve
              && CreditSum(s'.credits) + amount == CreditSum(s.credits)
              && Escrowed(s, 0 - (amount as int), s')
              && FindCredit(s.credits, target).Some?
              && var k := FindCredit(s.credits, target).value;
                 s'.credits == if amount == s.credits[k].tokenAmount then s.credits[..k] + s.credits[k + 1..]
                               else s.credits[k := s.credits[k].(tokenAmount := s.credits[k].tokenAmount - amount)]
  {
    if FindCredit(s.credits, target).Some? {
      var k := FindCredit(s.credits, target).value;
      if amount <= s.credits[k].tokenAmount {
        ReducedOk(s.credits, s.bank.escrow, k, amount);
      }
      if Uncredit(s, amount, target, authority, signed).Ok? {
        StakesUntouched(s, Uncredit(s, amount, target, authority, signed).value);
      }
    }
  }

  // ---- paying the queue

  /** An account handed in for a creditor. */
  datatype UserInfo = UserInfo(key: Pubkey, systemOwned: bool)

  datatype PayWork = PayWork(
    poolTotal: u64, reserve: u64, escrow: u64, outside: u64, total: u64,
    kept: seq<CreditRecord>, invalid: seq<CreditRecord>)

  /** What the loop does with one creditor. */
  datatype PayStep = Refuse(error: Error) | Skip | Stop | Pay(lamports: u64)

  function PayOne(pool: StakePool, w: PayWork, user: UserInfo, credit: CreditRecord, available: u64): (r: PayStep)
    ensures r.Pay? ==> credit.tokenAmount <= w.escrow && r.lamports <= w.reserve && w.outside + r.lamports < U64_LIMIT
  {
    if user.key != credit.solTarget then Refuse(InvalidArgument)
    else if !user.systemOwned then Skip
    else
      match LamportsAmount(pool.(poolTotal := w.poolTotal), credit.tokenAmount)
      case None => Refuse(CalculationFailure)
      case Some(lamports) =>
        if WrapAdd64(w.total, lamports) > available then Stop
        else if credit.tokenAmount > w.escrow then Refuse(TokenFailure)
        else if lamports > w.reserve || w.outside + lamports >= U64_LIMIT then Refuse(TransferFailed)
        else Pay(lamports)
  }

  /** The payment loop. Its tuple pattern pulls an account and a credit together,
      so a credit is pulled, and lost, even when the accounts have run out. */
  function PayLoop(pool: StakePool, w: PayWork, users: seq<UserInfo>, queue: seq<CreditRecord>, available: u64)
    : Result<PayWork, Error>
    decreases |queue|
  {
    if users == [] then Ok(w.(kept := if queue == [] then [] else queue[1..]))
    else if queue == [] then Ok(w.(kept := []))
    else
      match PayOne(pool, w, users[0], queue[0], available)
      case Refuse(e) => Err(e)
      case Skip => PayLoop(pool, w.(invalid := w.invalid + [queue[0]]), users[1..], queue[1..], available)
      case Stop => Ok(w.(kept := queue))
      case Pay(lamports) =>
        PayLoop(pool, Settled(w, queue[0].tokenAmount, lamports), users[1..], queue[1..], available)
  }

  /** One creditor paid: the token total falls now, the stake total after the loop. */
  function Settled(w: PayWork, tokens: u64, lamports: u64): PayWork
    requires tokens <= w.escrow && lamports <= w.reserve && w.outside + lamports < U64_LIMIT
  {
    w.(poolTotal := WrapSub64(w.poolTotal, tokens), escrow := w.escrow - tokens,
       reserve := w.reserve - lamports, outside := w.outside + lamports,
       total := WrapAdd64(w.total, lamports))
  }

  function PayStart(s: State): PayWork {
    PayWork(s.pool.poolTotal, s.bank.reserve, s.bank.escrow, s.bank.outside, 0, [], [])
  }

  function PayCreditors(s: State, users: seq<UserInfo>, rent: Rent): Result<State, Error> {
    if s.pool.lastUpdateEpoch < s.bank.epoch then Err(StakeListAndPoolOutOfDate)
    else
      var w :- PayLoop(s.pool, PayStart(s), users, s.credits, Spendable(s, rent));
      Ok(State(
        s.pool.(poolTotal := w.poolTotal, stakeTotal := WrapSub64(s.pool.stakeTotal, w.total)),
        s.validators,
        w.kept + w.invalid,
        s.bank.(reserve := w.reserve, escrow := w.escrow, outside := w.outside)))
  }

  // ---- what the loop does, told without the loop

  /** Creditors paid among the first `m`. */
  function PaidOf(users: seq<UserInfo>, queue: seq<CreditRecord>, m: nat): seq<CreditRecord>
    requires m <= |users| && m <= |queue|
  {
    if m == 0 then []
    else
      var rest := PaidOf(users[1..], queue[1..], m - 1);
      if users[0].systemOwned then [queue[0]] + rest else rest
  }

  /** Creditors skipped among the first `m`, because their account cannot take lamports. */
  function SkippedOf(users: seq<UserInfo>, queue: seq<CreditRecord>, m: nat): seq<CreditRecord>
    requires m <= |users| && m <= |queue|
  {
    if m == 0 then []
    else
      var rest := SkippedOf(users[1..], queue[1..], m - 1);
      if users[0].systemOwned then rest else [queue[0]] + rest
  }

  function Worth(stake: u64, supply: u64, tokens: u64): u64 {
    match MulDiv(tokens, stake, supply) case Some(x) => x case None => 0
  }

  /** What a batch pays: the supply shrinks from one creditor to the next, the stake does not. */
  function BatchPayments(stake: u64, supply: u64, paid: seq<CreditRecord>): seq<nat>
    decreases |paid|
  {
    if paid == [] then []
    else
      [Worth(stake, supply, paid[0].tokenAmount)] +
      BatchPayments(stake, WrapSub64(supply, paid[0].tokenAmount), paid[1..])
  }

  /** The recorded token total once they are paid. */
  function Drained(supply: u64, paid: seq<CreditRecord>): u64
    decreases |paid|
  {
    if paid == [] then supply else Drained(WrapSub64(supply, paid[0].tokenAmount), paid[1..])
  }

  lemma {:induction false} DrainedSum(supply: u64, paid: seq<CreditRecord>)
    ensures Drained(supply, paid) == (supply - CreditSum(paid)) % U64_LIMIT
    decreases |paid|
  {
    if paid != [] {
      WrapsModulo(supply, paid[0].tokenAmount);
      DrainedSum(WrapSub64(supply, paid[0].tokenAmount), paid[1..]);
    }
  }

  /** In numbers: each gets exactly their worth, rounded down, of what is then left. */
  lemma {:induction false} PaymentsExactly(stake: u64, supply: u64, paid: seq<CreditRecord>)
    requires CreditSum(paid) <= supply && (forall i :: 0 <= i < |paid| ==> paid[i].tokenAmount > 0)
    ensures |BatchPayments(stake, supply, paid)| == |paid|
    ensures forall i :: 0 <= i < |paid| ==>
              && CreditSum(paid[..i]) < supply
              && IsQuotient(BatchPayments(stake, supply, paid)[i], paid[i].tokenAmount, stake,
                            supply - CreditSum(paid[..i]))
    decreases |paid|
  {
    hide IsQuotient, Worth;
    if paid != [] {
      var tokens, rest := paid[0].tokenAmount, supply - paid[0].tokenAmount;
      WorthExactly(stake, supply, tokens);
      PaymentsExactly(stake, rest, paid[1..]);
      assert paid[..0] == [];
      forall i | 0 < i < |paid|
        ensures CreditSum(paid[..i]) == tokens + CreditSum(paid[1..][..i - 1])
      {
        PrefixSum(paid, i);
      }
    }
  }

  lemma {:induction false} PrefixSum(paid: seq<CreditRecord>, i: nat)
    requires 0 < i <= |paid|
    ensures CreditSum(paid[..i]) == paid[0].tokenAmount + CreditSum(paid[1..][..i - 1])
  {
    assert paid[..i][1..] == paid[1..][..i - 1];
  }

  lemma {:induction false} WorthExactly(stake: u64, supply: u64, tokens: u64)
    requires 0 < tokens <= supply
    ensures IsQuotient(Worth(stake, supply, tokens), tokens, stake, supply)
  {
    MulDivShrinks(stake, tokens, supply);
    assert tokens * stake == stake * tokens;
    MulDivFloor(tokens, stake, supply);
  }

  /** What the same creditors would get withdrawing one after the other. */
  function SequentialPayments(stake: u64, supply: u64, paid: seq<CreditRecord>): seq<nat>
    decreases |paid|
  {
    if paid == [] then []
    else
      var x := Worth(stake, supply, paid[0].tokenAmount);
      [x] + SequentialPayments(WrapSub64(stake, x), WrapSub64(supply, paid[0].tokenAmount), paid[1..])
  }

  function Sum(xs: seq<nat>): nat {
    if xs == [] then 0 else xs[0] + Sum(xs[1..])
  }

  /** How far a batch got, and why it ended there. */
  ghost predicate EndsAt(m: nat, users: seq<UserInfo>, queue: seq<CreditRecord>, kept: seq<CreditRecord>) {
    && m <= |users| && m <= |queue|
    && (forall j :: 0 <= j < m ==> users[j].key == queue[j].solTarget)
    && ( || (m < |users| && m < |queue| && kept == queue[m..])
         || (m == |queue| && kept == [])
         || (m == |users| < |queue| && kept == queue[m + 1..]))
  }

  /** What is left to spend is there. */
  ghost predicate Purse(w: PayWork, available: u64) {
    w.total <= available <= w.reserve + w.total < U64_LIMIT
  }

  /** What one creditor's turn comes to, in any state. When the running total wraps, the
      transfer that follows the check must fail, so a payment that goes through really is
      within the available lamports. */
  lemma {:induction false} PayOneAnywhere(pool: StakePool, w: PayWork, user: UserInfo, credit: CreditRecord,
                                          available: u64)
    requires Purse(w, available)
    ensures var r := PayOne(pool, w, user, credit, available);
            && (!r.Refuse? ==> user.key == credit.solTarget && (r.Skip? <==> !user.systemOwned))
            && (r.Stop? ==> w.total + Worth(pool.stakeTotal, w.poolTotal, credit.tokenAmount) > available)
            && (r.Pay? ==>
                  && r.lamports == Worth(pool.stakeTotal, w.poolTotal, credit.tokenAmount)
                  && w.total + r.lamports <= available
                  && Purse(Settled(w, credit.tokenAmount, r.lamports), available))
  {
    hide MulDiv;
  }

  lemma {:induction false} EndsAtNext(m: nat, users: seq<UserInfo>, queue: seq<CreditRecord>, kept: seq<CreditRecord>)
    requires users != [] && queue != [] && users[0].key == queue[0].solTarget
    requires EndsAt(m, users[1..], queue[1..], kept)
    ensures EndsAt(m + 1, users, queue, kept)
  {
    assert queue[1..][m..] == queue[m + 1..];
    if m < |queue| - 1 {
      assert queue[1..][m + 1..] == queue[m + 2..];
    }
    forall j | 0 <= j < m + 1 ensures users[j].key == queue[j].solTarget {
      if j > 0 {
        assert users[j] == users[1..][j - 1] && queue[j] == queue[1..][j - 1];
      }
    }
  }

  /** Effect of the loop from `w` to `w'` when `paid` are paid. */
  ghost predicate Effect(stake: u64, w: PayWork, w': PayWork, paid: seq<CreditRecord>, available: u64) {
    && w'.poolTotal == Drained(w.poolTotal, paid)
    && w'.escrow + CreditSum(paid) == w.escrow
    && w'.reserve + w'.total == w.reserve + w.total
    && w'.outside - w'.total == w.outside - w.total
    && w'.total == w.total + Sum(BatchPayments(stake, w.poolTotal, paid))
    && w'.total <= available
  }

  lemma {:induction false} EffectNext(stake: u64, w: PayWork, w': PayWork, c: CreditRecord, paid: seq<CreditRecord>,
                                      lamports: u64, available: u64)
    requires c.tokenAmount <= w.escrow && lamports <= w.reserve && w.outside + lamports < U64_LIMIT
    requires lamports == Worth(stake, w.poolTotal, c.tokenAmount)
    requires w.total + lamports <= available
    requires Effect(stake, Settled(w, c.tokenAmount, lamports), w', paid, available)
    ensures Effect(stake, w, w', [c] + paid, available)
  {
    hide Worth;
    assert ([c] + paid)[1..] == paid;
    var rest := BatchPayments(stake, WrapSub64(w.poolTotal, c.tokenAmount), paid);
    assert BatchPayments(stake, w.poolTotal, [c] + paid) == [lamports] + rest;
    assert ([lamports] + rest)[1..] == rest;
  }

  /** Stopped before the accounts and the queue ran out, the next creditor has a usable
      account but is owed more than what is left to spend. */
  ghost predicate StoppedFor(stake: u64, w': PayWork, users: seq<UserInfo>, queue: seq<CreditRecord>, m: nat,
                             available: u64)
  {
    m < |users| && m < |queue| ==>
      users[m].systemOwned && w'.total + Worth(stake, w'.poolTotal, queue[m].tokenAmount) > available
  }

  /** From `w`, examining `m` of the queue leads to `w'`. */
  ghost predicate Shape(stake: u64, w: PayWork, w': PayWork, users: seq<UserInfo>, queue: seq<CreditRecord>,
                        m: nat, available: u64)
  {
    && EndsAt(m, users, queue, w'.kept)
    && StoppedFor(stake, w', users, queue, m, available)
    && w'.invalid == w.invalid + SkippedOf(users, queue, m)
    && Effect(stake, w, w', PaidOf(users, queue, m), available)
  }

  lemma {:induction false} ShapeEnd(stake: u64, w: PayWork, users: seq<UserInfo>, queue: seq<CreditRecord>,
                                    kept: seq<CreditRecord>, available: u64)
    requires EndsAt(0, users, queue, kept) && w.total <= available
    requires StoppedFor(stake, w, users, queue, 0, available)
    ensures Shape(stake, w, w.(kept := kept), users, queue, 0, available)
  {
  }

  lemma {:induction false} ShapeSkip(stake: u64, w: PayWork, w': PayWork, users: seq<UserInfo>,
                                     queue: seq<CreditRecord>, m: nat, available: u64)
    requires users != [] && queue != [] && users[0].key == queue[0].solTarget && !users[0].systemOwned
    requires Shape(stake, w.(invalid := w.invalid + [queue[0]]), w', users[1..], queue[1..], m, available)
    ensures Shape(stake, w, w', users, queue, m + 1, available)
  {
    EndsAtNext(m, users, queue, w'.kept);
    assert w.invalid + [queue[0]] + SkippedOf(users[1..], queue[1..], m)
        == w.invalid + ([queue[0]] + SkippedOf(users[1..], queue[1..], m));
  }

  lemma {:induction false} ShapePay(stake: u64, w: PayWork, w': PayWork, users: seq<UserInfo>,
                                    queue: seq<CreditRecord>, m: nat, lamports: u64, available: u64)
    requires users != [] && queue != [] && users[0].key == queue[0].solTarget && users[0].systemOwned
    requires queue[0].tokenAmount <= w.escrow && lamports <= w.reserve && w.outside + lamports < U64_LIMIT
    requires lamports == Worth(stake, w.poolTotal, queue[0].tokenAmount)
    requires w.total + lamports <= available
    requires Shape(stake, Settled(w, queue[0].tokenAmount, lamports), w', users[1..], queue[1..], m, available)
    ensures Shape(stake, w, w', users, queue, m + 1, available)
  {
    EndsAtNext(m, users, queue, w'.kept);
    EffectNext(stake, w, w', queue[0], PaidOf(users[1..], queue[1..], m), lamports, available);
  }

  /** In any state the loop splits the queue and moves what the paid part comes to. */
  lemma {:induction false} PayLoopShape(pool: StakePool, w: PayWork, users: seq<UserInfo>,
                                        queue: seq<CreditRecord>, available: u64)
    returns (m: nat)
    requires Purse(w, available)
    requires PayLoop(pool, w, users, queue, available).Ok?
    ensures Shape(pool.stakeTotal, w, PayLoop(pool, w, users, queue, available).value, users, queue, m, available)
    decreases |queue|
  {
    m := 0;
    var w' := PayLoop(pool, w, users, queue, available).value;
    if users == [] || queue == [] {
      ShapeEnd(pool.stakeTotal, w, users, queue, w'.kept, available);
    } else {
      PayOneAnywhere(pool, w, users[0], queue[0], available);
      match PayOne(pool, w, users[0], queue[0], available)
      case Stop =>
        ShapeEnd(pool.stakeTotal, w, users, queue, queue, available);
      case Skip =>
        var n := PayLoopShape(pool, w.(invalid := w.invalid + [queue[0]]), users[1..], queue[1..], available);
        m := n + 1;
        ShapeSkip(pool.stakeTotal, w, w', users, queue, n, available);
      case Pay(lamports) =>
        var w1 := Settled(w, queue[0].tokenAmount, lamports);
        var n := PayLoopShape(pool, w1, users[1..], queue[1..], available);
        m := n + 1;
        ShapePay(pool.stakeTotal, w, w', users, queue, n, lamports, available);
    }
  }

  lemma {:induction false} PayLoopSpends(pool: StakePool, w: PayWork, users: seq<UserInfo>,
                                         queue: seq<CreditRecord>, available: u64)
    requires w.total <= available <= w.reserve + w.total < U64_LIMIT
    requires PayLoop(pool, w, users, queue, available).Ok?
    ensures var w' := PayLoop(pool, w, users, queue, available).value;
            w'.total <= available && w'.reserve + w'.total == w.reserve + w.total
    decreases |queue|
  {
    if users != [] && queue != [] {
      match PayOne(pool, w, users[0], queue[0], available)
      case Stop =>
      case Skip =>
        PayLoopSpends(pool, w.(invalid := w.invalid + [queue[0]]), users[1..], queue[1..], available);
      case Pay(lamports) =>
        PayLoopSpends(pool, Settled(w, queue[0].tokenAmount, lamports), users[1..], queue[1..], available);
    }
  }

  /** In any state a committed batch leaves the reserve its minimum, or what it
      had, even though the running total may wrap. */
  lemma {:induction false} PayCreditorsSpends(s: State, users: seq<UserInfo>, rent: Rent)
    requires PayCreditors(s, users, rent).Ok?
    ensures PayCreditors(s, users, rent).value.bank.reserve >= Min(s.bank.reserve, MinReserve(rent))
  {
    PayLoopSpends(s.pool, PayStart(s), users, s.credits, Spendable(s, rent));
  }

  /** Covered by the escrow, a batch never fails for lack of tokens. */
  lemma {:induction false} PayLoopNeverLacks(pool: StakePool, w: PayWork, users: seq<UserInfo>,
                                             queue: seq<CreditRecord>, available: u64)
    requires CreditSum(queue) <= w.escrow
    ensures PayLoop(pool, w, users, queue, available) != Err(TokenFailure)
    decreases |queue|
  {
    if users != [] && queue != [] {
      match PayOne(pool, w, users[0], queue[0], available)
      case Refuse(_) =>
      case Stop =>
      case Skip =>
        PayLoopNeverLacks(pool, w.(invalid := w.invalid + [queue[0]]), users[1..], queue[1..], available);
      case Pay(lamports) =>
        PayLoopNeverLacks(pool, Settled(w, queue[0].tokenAmount, lamports), users[1..], queue[1..], available);
    }
  }

  /** With the escrow in turn covered by the recorded total, it never fails on pricing. */
  lemma {:induction false} PayLoopPrices(pool: StakePool, w: PayWork, users: seq<UserInfo>,
                                         queue: seq<CreditRecord>, available: u64)
    requires CreditSum(queue) <= w.escrow <= w.poolTotal
    requires forall j :: 0 <= j < |queue| ==> queue[j].tokenAmount > 0
    ensures PayLoop(pool, w, users, queue, available) != Err(CalculationFailure)
    decreases |queue|
  {
    hide MulDiv;
    if users != [] && queue != [] {
      ShareWithinStake(pool.(poolTotal := w.poolTotal), queue[0].tokenAmount);
      match PayOne(pool, w, users[0], queue[0], available)
      case Refuse(_) =>
      case Stop =>
      case Skip =>
        PayLoopPrices(pool, w.(invalid := w.invalid + [queue[0]]), users[1..], queue[1..], available);
      case Pay(lamports) =>
        PayLoopPrices(pool, Settled(w, queue[0].tokenAmount, lamports), users[1..], queue[1..], available);
    }
  }

  lemma {:induction false} DistinctRotate(c: CreditRecord, q: seq<CreditRecord>)
    requires DistinctTargets([c] + q)
    ensures DistinctTargets(q + [c])
  {
    var r := q + [c];
    forall i, j | 0 <= i < j < |r| ensures r[i].solTarget != r[j].solTarget {
      assert r[i] == ([c] + q)[i + 1];
      if j < |q| {
        assert r[j] == ([c] + q)[j + 1];
      } else {
        assert r[j] == ([c] + q)[0];
      }
    }
  }

  lemma {:induction false} MoreEscrow(credits: seq<CreditRecord>, escrow: nat, escrow': nat)
    requires QueueOk(credits, escrow) && escrow <= escrow'
    ensures QueueOk(credits, escrow')
  {
  }

  lemma {:induction false} RotatedOk(q: seq<CreditRecord>, escrow: nat)
    requires QueueOk(q, escrow) && q != []
    ensures QueueOk(q[1..] + [q[0]], escrow)
  {
    assert q == [q[0]] + q[1..];
    DistinctRotate(q[0], q[1..]);
    CreditSumConcat(q[1..], [q[0]]);
  }

  /** In any state the payment loop keeps the queue distinct, bounded and covered: a
      paid record leaves with its tokens, a skipped one goes to the back. */
  lemma {:induction false} PayLoopQueued(pool: StakePool, w: PayWork, users: seq<UserInfo>,
                                         queue: seq<CreditRecord>, available: u64)
    requires QueueOk(queue + w.invalid, w.escrow)
    requires PayLoop(pool, w, users, queue, available).Ok?
    ensures var w' := PayLoop(pool, w, users, queue, available).value; QueueOk(w'.kept + w'.invalid, w'.escrow)
    decreases |queue|
  {
    hide QueueOk, PayOne;
    if queue != [] {
      var q := queue + w.invalid;
      assert q[..0] + q[1..] == q[1..] == queue[1..] + w.invalid;
      RemovedOk(q, w.escrow, 0);
      if users == [] {
        MoreEscrow(q[1..], w.escrow - queue[0].tokenAmount, w.escrow);
      } else {
        match PayOne(pool, w, users[0], queue[0], available)
        case Stop =>
        case Skip =>
          RotatedOk(q, w.escrow);
          assert queue[1..] + (w.invalid + [queue[0]]) == q[1..] + [q[0]];
          PayLoopQueued(pool, w.(invalid := w.invalid + [queue[0]]), users[1..], queue[1..], available);
        case Pay(lamports) =>
          PayLoopQueued(pool, Settled(w, queue[0].tokenAmount, lamports), users[1..], queue[1..], available);
      }
    }
  }

  /** In any state the loop moves lamports only out of the reserve and, as long as the
      escrow is within the recorded total, takes the same tokens off both. */
  lemma {:induction false} PayLoopMoves(pool: StakePool, w: PayWork, users: seq<UserInfo>,
                                        queue: seq<CreditRecord>, available: u64)
    requires PayLoop(pool, w, users, queue, available).Ok?
    ensures var w' := PayLoop(pool, w, users, queue, available).value;
            && w'.reserve + w'.outside == w.reserve + w.outside
            && w'.escrow <= w.escrow
            && (w.escrow <= w.poolTotal ==> w.poolTotal - w'.poolTotal == w.escrow - w'.escrow)
    decreases |queue|
  {
    if users != [] && queue != [] {
      match PayOne(pool, w, users[0], queue[0], available)
      case Stop =>
      case Skip =>
        PayLoopMoves(pool, w.(invalid := w.invalid + [queue[0]]), users[1..], queue[1..], available);
      case Pay(lamports) =>
        PayLoopMoves(pool, Settled(w, queue[0].tokenAmount, lamports), users[1..], queue[1..], available);
    }
  }

  /** What a committed batch keeps in any state, overdrawn or not. */
  lemma {:induction false} PayCreditorsAnywhere(s: State, users: seq<UserInfo>, rent: Rent)
    requires PayCreditors(s, users, rent).Ok?
    ensures var s' := PayCreditors(s, users, rent).value;
            && (Queued(s) ==> Queued(s'))
            && Supply(s') <= Supply(s)
            && (SupplyOk(s) ==> SupplyOk(s') && Supply(s) - Supply(s') == s.pool.poolTotal - s'.pool.poolTotal)
            && s'.bank.reserve + s'.bank.outside == s.bank.reserve + s.bank.outside
            && s'.bank.reserve >= Min(s.bank.reserve, MinReserve(rent))
  {
    var available := Spendable(s, rent);
    assert s.credits + [] == s.credits;
    PayCreditorsSpends(s, users, rent);
    PayLoopMoves(s.pool, PayStart(s), users, s.credits, available);
    if Queued(s) {
      PayLoopQueued(s.pool, PayStart(s), users, s.credits, available);
    }
  }

  lemma {:induction false} PartsOfQueue(users: seq<UserInfo>, queue: seq<CreditRecord>, m: nat)
    requires m <= |users| && m <= |queue|
    ensures multiset(PaidOf(users, queue, m)) + multiset(SkippedOf(users, queue, m)) + multiset(queue[m..])
         == multiset(queue)
  {
    if m == 0 {
      assert queue[0..] == queue;
    } else {
      PartsOfQueue(users[1..], queue[1..], m - 1);
      assert queue[1..][m - 1..] == queue[m..];
      assert queue == [queue[0]] + queue[1..];
    }
  }

  /** What becomes of a queue of which a batch examined `m`: the accounts matched, the
      rest and then the skipped remain in order, and nobody is lost unless the accounts ran
      out first, when exactly the next record is. */
  ghost predicate Disciplined(users: seq<UserInfo>, queue: seq<CreditRecord>, m: nat, queue': seq<CreditRecord>) {
    && m <= |users| && m <= |queue|
    && (forall j :: 0 <= j < m ==> users[j].key == queue[j].solTarget)
    && var paid, skipped := PaidOf(users, queue, m), SkippedOf(users, queue, m);
       && queue' == (if m == |users| < |queue| then queue[m + 1..] else queue[m..]) + skipped
       && (m < |users| || |queue| <= |users| ==> multiset(queue) == multiset(paid) + multiset(queue'))
       && (m == |users| < |queue| ==> multiset(queue) == multiset(paid) + multiset(queue') + multiset{queue[m]})
  }

  lemma {:induction false} QueueAccounted(users: seq<UserInfo>, queue: seq<CreditRecord>, m: nat,
                                          kept: seq<CreditRecord>)
    requires EndsAt(m, users, queue, kept)
    ensures Disciplined(users, queue, m, kept + SkippedOf(users, queue, m))
  {
    hide PaidOf, SkippedOf;
    PartsOfQueue(users, queue, m);
    if m == |users| < |queue| {
      assert queue[m..] == [queue[m]] + queue[m + 1..];
    }
  }

  /** Lamports a batch hands out. */
  function BatchTotal(s: State, users: seq<UserInfo>, rent: Rent): u64 {
    match PayLoop(s.pool, PayStart(s), users, s.credits, Spendable(s, rent))
    case Ok(w) => w.total
    case Err(_) => 0
  }

  /** A committed batch keeps the stake backed, and the pool in order, exactly when it hands
      out no more than the recorded stake. Either way lamports are conserved and the
      reserve keeps its minimum, or what it had. */
  lemma {:induction false} PayCreditorsKeeps(s: State, users: seq<UserInfo>, rent: Rent)
    requires StakesOk(s) && PayCreditors(s, users, rent).Ok?
    ensures var s' := PayCreditors(s, users, rent).value;
            && (Backed(s) && BatchTotal(s, users, rent) <= s.pool.stakeTotal ==> Backed(s'))
            && (BatchTotal(s, users, rent) > s.pool.stakeTotal ==> !Backed(s'))
            && (Inv(s) ==> (Inv(s') <==> BatchTotal(s, users, rent) <= s.pool.stakeTotal))
            && Capital(s') == Capital(s)
            && s.bank.reserve == s'.bank.reserve + BatchTotal(s, users, rent)
            && s'.bank.reserve >= Min(s.bank.reserve, MinReserve(rent))
  {
    hide PayLoop, QueueOk, Listed;
    var s' := PayCreditors(s, users, rent).value;
    PayCreditorsAnywhere(s, users, rent);
    PayLoopSpends(s.pool, PayStart(s), users, s.credits, Spendable(s, rent));
    StakesUntouched(s, s');
  }

  // ---- the same condition on the inputs

  /** Lamports it takes to pay the usable accounts among the first `m`. */
  function Payments(s: State, users: seq<UserInfo>, m: nat): nat
    requires m <= |users| && m <= |s.credits|
  {
    Sum(BatchPayments(s.pool.stakeTotal, s.pool.poolTotal, PaidOf(users, s.credits, m)))
  }

  lemma {:induction false} PaidOfNext(users: seq<UserInfo>, queue: seq<CreditRecord>, m: nat)
    requires m < |users| && m < |queue|
    ensures PaidOf(users, queue, m + 1) == PaidOf(users, queue, m) + if users[m].systemOwned then [queue[m]] else []
  {
    if m > 0 {
      PaidOfNext(users[1..], queue[1..], m - 1);
    }
  }

  lemma {:induction false} BatchPaymentsNext(stake: u64, supply: u64, paid: seq<CreditRecord>, c: CreditRecord)
    ensures Sum(BatchPayments(stake, supply, paid + [c]))
         == Sum(BatchPayments(stake, supply, paid)) + Worth(stake, Drained(supply, paid), c.tokenAmount)
    decreases |paid|
  {
    hide Worth;
    var all := paid + [c];
    if paid == [] {
      assert all == [c] && all[1..] == [];
      assert BatchPayments(stake, supply, all) == [Worth(stake, supply, c.tokenAmount)];
    } else {
      assert all[1..] == paid[1..] + [c];
      var x, rest := Worth(stake, supply, paid[0].tokenAmount), WrapSub64(supply, paid[0].tokenAmount);
      BatchPaymentsNext(stake, rest, paid[1..], c);
      assert BatchPayments(stake, supply, all) == [x] + BatchPayments(stake, rest, all[1..]);
    }
  }

  /** Paying one more creditor costs what their tokens are worth by then. */
  lemma {:induction false} PaymentsNext(s: State, users: seq<UserInfo>, m: nat)
    requires m < |users| && m < |s.credits|
    ensures var left := Drained(s.pool.poolTotal, PaidOf(users, s.credits, m));
            Payments(s, users, m + 1) == Payments(s, users, m)
              + (if users[m].systemOwned then Worth(s.pool.stakeTotal, left, s.credits[m].tokenAmount) else 0)
  {
    hide Worth;
    var paid := PaidOf(users, s.credits, m);
    PaidOfNext(users, s.credits, m);
    if users[m].systemOwned {
      BatchPaymentsNext(s.pool.stakeTotal, s.pool.poolTotal, paid, s.credits[m]);
    } else {
      assert paid + [] == paid;
    }
  }

  lemma {:induction false} PaymentsGrow(s: State, users: seq<UserInfo>, m: nat, n: nat)
    requires m <= n <= |users| && n <= |s.credits|
    ensures Payments(s, users, m) <= Payments(s, users, n)
    decreases n
  {
    if m < n {
      PaymentsGrow(s, users, m, n - 1);
      PaymentsNext(s, users, n - 1);
    }
  }

  /** Queue discipline, of every committed batch from any state. It examines a prefix of
      the queue; those of the prefix with a usable account are paid, the others go to the
      back in order. It goes as far as the accounts, the queue and the spendable reserve
      allow. Stopped on the funds check it loses nobody: old equals paid plus new. Run out
      of accounts before creditors, it loses exactly one record. */
  lemma {:induction false} QueueDiscipline(s: State, users: seq<UserInfo>, rent: Rent) returns (m: nat)
    requires PayCreditors(s, users, rent).Ok?
    ensures m <= |users| && m <= |s.credits|
    ensures var s' := PayCreditors(s, users, rent).value;
            && Disciplined(users, s.credits, m, s'.credits)
            && s.bank.escrow - s'.bank.escrow == CreditSum(PaidOf(users, s.credits, m))
            && s'.pool.poolTotal == (s.pool.poolTotal - CreditSum(PaidOf(users, s.credits, m))) % U64_LIMIT
            && s'.pool.stakeTotal == (s.pool.stakeTotal - BatchTotal(s, users, rent)) % U64_LIMIT
            && s'.bank.reserve + s'.bank.outside == s.bank.reserve + s.bank.outside
            && s' == s.(pool := s.pool.(poolTotal := s'.pool.poolTotal, stakeTotal := s'.pool.stakeTotal),
                        credits := s'.credits,
                        bank := s.bank.(reserve := s'.bank.reserve, escrow := s'.bank.escrow,
                                        outside := s'.bank.outside))
            && s.bank.reserve - s'.bank.reserve == BatchTotal(s, users, rent) == Payments(s, users, m)
            && Payments(s, users, m) <= Spendable(s, rent)
    ensures m < |users| && m < |s.credits| ==> Payments(s, users, m + 1) > Spendable(s, rent)
  {
    hide PayLoop, PaidOf, SkippedOf, BatchPayments, Worth, Sum, Disciplined, Drained;
    m := PayLoopShape(s.pool, PayStart(s), users, s.credits, Spendable(s, rent));
    var w := PayLoop(s.pool, PayStart(s), users, s.credits, Spendable(s, rent)).value;
    assert [] + SkippedOf(users, s.credits, m) == SkippedOf(users, s.credits, m);
    QueueAccounted(users, s.credits, m, w.kept);
    DrainedSum(s.pool.poolTotal, PaidOf(users, s.credits, m));
    WrapsModulo(s.pool.stakeTotal, w.total);
    if m < |users| && m < |s.credits| {
      PaymentsNext(s, users, m);
    }
  }

  /** So a batch keeps the stake backed exactly when every number of creditors the reserve
      can pay is one the recorded stake can pay. */
  lemma {:induction false} OverdrawExactly(s: State, users: seq<UserInfo>, rent: Rent)
    requires StakesOk(s) && Backed(s) && PayCreditors(s, users, rent).Ok?
    ensures Backed(PayCreditors(s, users, rent).value) <==>
              forall k :: 0 <= k <= |users| && k <= |s.credits| && Payments(s, users, k) <= Spendable(s, rent) ==>
                Payments(s, users, k) <= s.pool.stakeTotal
    ensures Inv(s) ==> (Inv(PayCreditors(s, users, rent).value) <==> Backed(PayCreditors(s, users, rent).value))
  {
    hide PayCreditors, Payments, BatchTotal, Disciplined, PaidOf;
    PayCreditorsKeeps(s, users, rent);
    var m := QueueDiscipline(s, users, rent);
    forall k | 0 <= k <= |users| && k <= |s.credits| && Payments(s, users, k) <= Spendable(s, rent)
      ensures Payments(s, users, k) <= Payments(s, users, m)
    {
      if k <= m {
        PaymentsGrow(s, users, k, m);
      } else {
        PaymentsGrow(s, users, m + 1, k);
      }
    }
  }

  /** A caller may rely on this simpler bound: when the spendable reserve does not
      exceed the recorded stake, no batch can overdraw it. */
  lemma {:induction false} SpendableReserveSuffices(s: State, users: seq<UserInfo>, rent: Rent)
    requires PayCreditors(s, users, rent).Ok?
    requires s.bank.reserve - MinReserve(rent) <= s.pool.stakeTotal
    ensures BatchTotal(s, users, rent) <= s.pool.stakeTotal
  {
    PayLoopSpends(s.pool, PayStart(s), users, s.credits, Spendable(s, rent));
  }

  /** A batch never fails for lack of escrowed tokens nor, the supply being covered, on
      pricing. */
  lemma {:induction false} PayNeverLacksTokens(s: State, users: seq<UserInfo>, rent: Rent)
    requires Queued(s)
    ensures PayCreditors(s, users, rent) != Err(TokenFailure)
    ensures SupplyOk(s) ==> PayCreditors(s, users, rent) != Err(CalculationFailure)
  {
    PayLoopNeverLacks(s.pool, PayStart(s), users, s.credits, Spendable(s, rent));
    if SupplyOk(s) {
      PayLoopPrices(s.pool, PayStart(s), users, s.credits, Spendable(s, rent));
    }
  }

  lemma {:induction false} PayLoopCommits(pool: StakePool, w: PayWork, users: seq<UserInfo>,
                                          queue: seq<CreditRecord>, available: u64)
    requires Purse(w, available) && w.reserve + w.outside < U64_LIMIT && available + pool.stakeTotal < U64_LIMIT
    requires CreditSum(queue) <= w.escrow <= w.poolTotal
    requires forall j :: 0 <= j < |queue| ==> queue[j].tokenAmount > 0
    requires forall j :: 0 <= j < |users| && j < |queue| ==> users[j].key == queue[j].solTarget
    ensures PayLoop(pool, w, users, queue, available).Ok?
    decreases |queue|
  {
    hide MulDiv;
    if users != [] && queue != [] {
      ShareWithinStake(pool.(poolTotal := w.poolTotal), queue[0].tokenAmount);
      PayOneAnywhere(pool, w, users[0], queue[0], available);
      match PayOne(pool, w, users[0], queue[0], available)
      case Stop =>
      case Skip =>
        PayLoopCommits(pool, w.(invalid := w.invalid + [queue[0]]), users[1..], queue[1..], available);
      case Pay(lamports) =>
        PayLoopCommits(pool, Settled(w, queue[0].tokenAmount, lamports), users[1..], queue[1..], available);
    }
  }

  /** In a pool in order a batch for the first creditors of the queue commits exactly when
      the pool is up to date, lest a sum of lamports need more than 64 bits. */
  lemma {:induction false} PayCommits(s: State, users: seq<UserInfo>, rent: Rent)
    requires Inv(s) && Spendable(s, rent) + s.pool.stakeTotal < U64_LIMIT
    requires forall j :: 0 <= j < |users| && j < |s.credits| ==> users[j].key == s.credits[j].solTarget
    ensures PayCreditors(s, users, rent).Ok? <==> s.pool.lastUpdateEpoch == s.bank.epoch
  {
    hide PayLoop;
    PayLoopCommits(s.pool, PayStart(s), users, s.credits, Spendable(s, rent));
  }

  /** And never for another creditor first. */
  lemma {:induction false} PayRefusesStrangers(s: State, users: seq<UserInfo>, rent: Rent)
    requires users != [] && s.credits != [] && users[0].key != s.credits[0].solTarget
    ensures PayCreditors(s, users, rent).Err?
  {
  }

  /** In a batch every creditor gets at least what withdrawing in turn would give;
      the first gets exactly that. */
  lemma {:induction false} BatchBeatsSequential(stake: u64, stake': u64, supply: u64, paid: seq<CreditRecord>)
    requires stake' <= stake && CreditSum(paid) <= supply
    ensures var batch, seqn := BatchPayments(stake, supply, paid), SequentialPayments(stake', supply, paid);
            && |batch| == |seqn| == |paid|
            && (forall i :: 0 <= i < |paid| ==> batch[i] >= seqn[i])
            && (stake == stake' && paid != [] ==> batch[0] == seqn[0])
    decreases |paid|
  {
    if paid != [] {
      var tokens := paid[0].tokenAmount;
      WorthGrows(stake, stake', supply, tokens);
      BatchBeatsSequential(stake, stake' - Worth(stake', supply, tokens), supply - tokens, paid[1..]);
    }
  }

  /** So no creditor loses by being paid in a batch. */
  lemma {:induction false} BatchLosesNobody(s: State, users: seq<UserInfo>, rent: Rent) returns (m: nat)
    requires SupplyOk(s) && PayCreditors(s, users, rent).Ok?
    ensures m <= |users| && m <= |s.credits|
    ensures var paid := PaidOf(users, s.credits, m);
            var batch := BatchPayments(s.pool.stakeTotal, s.pool.poolTotal, paid);
            var inTurn := SequentialPayments(s.pool.stakeTotal, s.pool.poolTotal, paid);
            && Disciplined(users, s.credits, m, PayCreditors(s, users, rent).value.credits)
            && Sum(batch) == s.bank.reserve - PayCreditors(s, users, rent).value.bank.reserve
            && |batch| == |inTurn| == |paid|
            && (forall i :: 0 <= i < |paid| ==> batch[i] >= inTurn[i])
            && (paid != [] ==> batch[0] == inTurn[0])
  {
    m := QueueDiscipline(s, users, rent);
    BatchBeatsSequential(s.pool.stakeTotal, s.pool.stakeTotal, s.pool.poolTotal, PaidOf(users, s.credits, m));
  }

  lemma {:induction false} WorthGrows(stake: u64, stake': u64, supply: u64, tokens: u64)
    requires stake' <= stake && tokens <= supply
    ensures Worth(stake', supply, tokens) <= Worth(stake, supply, tokens)
    ensures Worth(stake', supply, tokens) <= stake'
  {
    if supply > 0 {
      MulDivShrinks(stake, tokens, supply);
      MulDivShrinks(stake', tokens, supply);
      assert tokens * stake == stake * tokens && tokens * stake' == stake' * tokens;
      MoreStakePaysMore(tokens, stake', stake, supply);
    }
  }

  lemma {:induction false} SamePrice(stake: u64, total: u64)
    ensures PriceHolds(stake, total, stake, total)
  {
  }

  /** Paying one creditor keeps the share price. */
  lemma {:induction false} OnePaymentKeepsPrice(s: State, user: UserInfo, rent: Rent)
    requires SupplyOk(s) && PayCreditors(s, [user], rent).Ok?
    ensures BatchTotal(s, [user], rent) <= s.pool.stakeTotal
    ensures var p := PayCreditors(s, [user], rent).value.pool;
            PriceHolds(s.pool.stakeTotal, s.pool.poolTotal, p.stakeTotal, p.poolTotal)
  {
    hide PayLoop, MulDiv, Disciplined, PriceHolds, IsQuotient;
    var m := QueueDiscipline(s, [user], rent);
    var stake, total := s.pool.stakeTotal, s.pool.poolTotal;
    SmallModulo(stake);
    SmallModulo(total);
    if m == 1 && user.systemOwned {
      var c := s.credits[0];
      assert PaidOf([user], s.credits, 1) == [c] + PaidOf([user][1..], s.credits[1..], 0) == [c];
      assert [c][1..] == [];
      assert CreditSum([c]) == c.tokenAmount;
      var x := Worth(stake, total, c.tokenAmount);
      assert BatchPayments(stake, total, [c]) == [x] + BatchPayments(stake, WrapSub64(total, c.tokenAmount), []) == [x];
      assert [x][1..] == [] && Sum([x]) == x;
      if total > 0 {
        WithdrawKeepsPrice(s.pool, c.tokenAmount);
        SmallModulo(stake - x);
        SmallModulo(total - c.tokenAmount);
      } else {
        MulDivFails(c.tokenAmount, stake, 0);
        SamePrice(stake, total);
      }
    } else {
      assert PaidOf([user], s.credits, m) == [];
      SamePrice(stake, total);
    }
  }
}
