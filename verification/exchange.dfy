/** Deposit and Withdraw: lamports against pool tokens at the current price. */
module Exchange {
  import opened Machine
  import opened Data
  import opened Ledger
  import opened Pricing
  import opened Invariants

  function Deposit(s: State, amount: u64, rent: Rent): Result<State, Error> {
    var pool, bank := s.pool, s.bank;
    if amount == 0 then Err(InvalidArgument)
    else if WrapAdd64(bank.reserve, amount) < MinReserve(rent) then Err(FirstDepositIsTooSmall)
    else if PoolDepositAmount(pool, amount).None? then Err(CalculationFailure)
    else
      var minted := PoolDepositAmount(pool, amount).value;
      if FeeAmount(pool, minted).None? || FeeAmount(pool, minted).value > minted then Err(CalculationFailure)
      else if amount > bank.outside || bank.reserve + amount >= U64_LIMIT then Err(TransferFailed)
      else if bank.circulating + bank.escrow + minted >= U64_LIMIT then Err(TokenFailure)
      else Ok(s.(
        pool := pool.(poolTotal := WrapAdd64(pool.poolTotal, minted), stakeTotal := WrapAdd64(pool.stakeTotal, amount)),
        bank := bank.(reserve := bank.reserve + amount, outside := bank.outside - amount,
                      circulating := bank.circulating + minted)))
  }

  function Withdraw(s: State, tokens: u64, rent: Rent): Result<State, Error> {
    var pool, bank := s.pool, s.bank;
    if tokens == 0 then Err(InvalidArgument)
    else if LamportsAmount(pool, tokens).None? then Err(CalculationFailure)
    else
      var lamports := LamportsAmount(pool, tokens).value;
      if lamports > bank.reserve
         || bank.reserve - lamports < MIN_RESERVE_BALANCE
         || bank.reserve - lamports < rent.empty then Err(InsufficientFunds)
      else if tokens > bank.circulating then Err(TokenFailure)
      else if bank.outside + lamports >= U64_LIMIT then Err(TransferFailed)
      else Ok(s.(
        pool := pool.(poolTotal := WrapSub64(pool.poolTotal, tokens),
                      stakeTotal := WrapSub64(pool.stakeTotal, lamports)),
        bank := bank.(reserve := bank.reserve - lamports, outside := bank.outside + lamports,
                      circulating := bank.circulating - tokens)))
  }

  /** Tokens a deposit creates, fee included. */
  function Minted(s: State, amount: u64): u64 {
    match PoolDepositAmount(s.pool, amount) case Some(m) => m case None => 0
  }

  /** Lamports a withdrawal pays. */
  function Paid(s: State, tokens: u64): u64 {
    match LamportsAmount(s.pool, tokens) case Some(w) => w case None => 0
  }

  /** What a deposit does, in numbers: the user's lamports go to the reserve, and tokens of
      exactly their worth, rounded down, are new; nothing else changes. */
  ghost predicate Deposited(s: State, amount: nat, s': State) {
    var minted := Supply(s') - Supply(s);
    && 0 <= minted
    && (if s.pool.stakeTotal == 0 then minted == amount
        else IsQuotient(minted, amount, s.pool.poolTotal, s.pool.stakeTotal))
    && s'.bank.reserve == s.bank.reserve + amount && s'.bank.outside + amount == s.bank.outside
    && s'.pool.poolTotal == (s.pool.poolTotal + minted) % U64_LIMIT
    && s'.pool.stakeTotal == (s.pool.stakeTotal + amount) % U64_LIMIT
    && s' == s.(pool := s.pool.(poolTotal := s'.pool.poolTotal, stakeTotal := s'.pool.stakeTotal),
                bank := s.bank.(reserve := s'.bank.reserve, outside := s'.bank.outside,
                                circulating := s'.bank.circulating))
  }

  /** What a withdrawal does: tokens go, and lamports of exactly their worth, rounded down,
      leave the reserve; nothing else changes. */
  ghost predicate Withdrawn(s: State, tokens: nat, s': State) {
    var paid := s.bank.reserve - s'.bank.reserve;
    && 0 <= paid && IsQuotient(paid, tokens, s.pool.stakeTotal, s.pool.poolTotal)
    && s'.bank.outside == s.bank.outside + paid && s'.bank.circulating + tokens == s.bank.circulating
    && s'.pool.poolTotal == (s.pool.poolTotal - tokens) % U64_LIMIT
    && s'.pool.stakeTotal == (s.pool.stakeTotal - paid) % U64_LIMIT
    && s' == s.(pool := s.pool.(poolTotal := s'.pool.poolTotal, stakeTotal := s'.pool.stakeTotal),
                bank := s.bank.(reserve := s'.bank.reserve, outside := s'.bank.outside,
                                circulating := s'.bank.circulating))
  }

  /** With a fee of at most one a deposit commits exactly when the user has the lamports,
      the reserve reaches its minimum, and the lamports and tokens there will be fit in 64
      bits; and then it does what it should. */
  lemma {:induction false} DepositExactly(s: State, amount: u64, rent: Rent)
    ensures Deposit(s, amount, rent).Ok? ==> Deposited(s, amount, Deposit(s, amount, rent).value)
    ensures FeeOk(s) ==>
              (Deposit(s, amount, rent).Ok? <==>
                 && 0 < amount <= s.bank.outside && MinReserve(rent) <= s.bank.reserve + amount < U64_LIMIT
                 && Supply(s) + Worth(s, amount) < U64_LIMIT)
  {
    hide MulDiv, MinReserve, IsQuotient;
    if PoolDepositAmount(s.pool, amount).Some? {
      var minted := PoolDepositAmount(s.pool, amount).value;
      DepositKeepsPrice(s.pool, amount);
      if FeeOk(s) {
        FeeWithinAmount(s.pool, minted);
      }
      WrapsModulo(s.pool.poolTotal, minted);
    }
    WrapsModulo(s.pool.stakeTotal, amount);
    WorthMinted(s, amount);
  }

  /** What `amount` lamports buy, were there no limit to the tokens. */
  function Worth(s: State, amount: u64): int {
    if s.pool.stakeTotal == 0 then amount else amount * s.pool.poolTotal / s.pool.stakeTotal
  }

  lemma {:induction false} WorthMinted(s: State, amount: u64)
    ensures if Worth(s, amount) < U64_LIMIT then PoolDepositAmount(s.pool, amount) == Some(Worth(s, amount))
            else PoolDepositAmount(s.pool, amount).None?
  {
    MulDivFails(amount, s.pool.poolTotal, s.pool.stakeTotal);
  }

  /** A withdrawal commits exactly when the tokens are there, have a price, and paying it
      leaves the reserve its floor and its rent; and then it does what it should. */
  lemma {:induction false} WithdrawExactly(s: State, tokens: u64, rent: Rent)
    ensures Withdraw(s, tokens, rent).Ok? ==> Withdrawn(s, tokens, Withdraw(s, tokens, rent).value)
    ensures Withdraw(s, tokens, rent).Ok? <==>
              && 0 < tokens <= s.bank.circulating && 0 < s.pool.poolTotal
              && var paid := tokens * s.pool.stakeTotal / s.pool.poolTotal;
                 paid + Max(MIN_RESERVE_BALANCE, rent.empty) <= s.bank.reserve && s.bank.outside + paid < U64_LIMIT
  {
    if LamportsAmount(s.pool, tokens).Some? {
      MulDivFloor(tokens, s.pool.stakeTotal, s.pool.poolTotal);
      WrapsModulo(s.pool.stakeTotal, LamportsAmount(s.pool, tokens).value);
    }
    MulDivFails(tokens, s.pool.stakeTotal, s.pool.poolTotal);
    WrapsModulo(s.pool.poolTotal, tokens);
  }

  /** A committed deposit keeps the pool in order exactly when the recorded token
      total does not wrap; lamports are conserved and the fee fits either way. */
  lemma {:induction false} DepositKeeps(s: State, amount: u64, rent: Rent)
    requires Inv(s) && Deposit(s, amount, rent).Ok?
    ensures var s' := Deposit(s, amount, rent).value;
            && Deposited(s, amount, s')
            && (Inv(s') <==> s.pool.poolTotal + Minted(s, amount) < U64_LIMIT)
            && (SupplyOk(s') <==> s.pool.poolTotal + Minted(s, amount) < U64_LIMIT)
            && Capital(s') == Capital(s) && Backed(s')
            && Supply(s') == Supply(s) + Minted(s, amount)
            && s'.pool.poolTotal == WrapAdd64(s.pool.poolTotal, Minted(s, amount))
            && s'.pool.stakeTotal == s.pool.stakeTotal + amount
            && s'.bank.reserve >= MIN_RESERVE_BALANCE
            && s'.bank.reserve == s.bank.reserve + amount
  {
    hide Deposited;
    var s' := Deposit(s, amount, rent).value;
    DepositExactly(s, amount, rent);
    assert Listed(s'.validators, s'.bank.accounts) == Listed(s.validators, s.bank.accounts);
    assert Covered(s'.validators, s'.bank.accounts);
    if s.pool.poolTotal + Minted(s, amount) >= U64_LIMIT {
      assert Supply(s') > s'.pool.poolTotal;
    }
  }

  /** When nobody has burnt tokens behind the program's back the mint itself
      refuses every deposit that would wrap the total. */
  lemma {:induction false} ExactSupplyNeverWraps(s: State, amount: u64, rent: Rent)
    requires Supply(s) == s.pool.poolTotal && Deposit(s, amount, rent).Ok?
    ensures s.pool.poolTotal + Minted(s, amount) < U64_LIMIT
    ensures var s' := Deposit(s, amount, rent).value; Supply(s') == s'.pool.poolTotal
  {
  }

  /** In any state a committed deposit that does not wrap the recorded total keeps a covered
      supply covered, and one that does leaves it uncovered. */
  lemma {:induction false} DepositSupply(s: State, amount: u64, rent: Rent)
    requires Deposit(s, amount, rent).Ok?
    ensures SupplyOk(s) && s.pool.poolTotal + Minted(s, amount) < U64_LIMIT ==> SupplyOk(Deposit(s, amount, rent).value)
    ensures s.pool.poolTotal + Minted(s, amount) >= U64_LIMIT ==> !SupplyOk(Deposit(s, amount, rent).value)
  {
    hide MulDiv;
  }

  /** A withdrawal from a covered supply underflows neither total. */
  lemma {:induction false} WithdrawSupply(s: State, tokens: u64, rent: Rent)
    requires SupplyOk(s) && Withdraw(s, tokens, rent).Ok?
    ensures var s' := Withdraw(s, tokens, rent).value;
            && SupplyOk(s') && Supply(s) - Supply(s') == tokens
            && s.pool.poolTotal == s'.pool.poolTotal + tokens
            && s.pool.stakeTotal == s'.pool.stakeTotal + Paid(s, tokens)
  {
    hide MulDiv;
    WithdrawPriced(s, tokens, rent);
    ShareWithinStake(s.pool, tokens);
  }

  lemma {:induction false} WithdrawPriced(s: State, tokens: u64, rent: Rent)
    requires Withdraw(s, tokens, rent).Ok?
    ensures 0 < s.pool.poolTotal
  {
  }

  /** A committed withdrawal never underflows either total. */
  lemma {:induction false} WithdrawKeeps(s: State, tokens: u64, rent: Rent)
    requires Inv(s) && Withdraw(s, tokens, rent).Ok?
    ensures var s' := Withdraw(s, tokens, rent).value;
            && Withdrawn(s, tokens, s')
            && Inv(s')
            && Capital(s') == Capital(s)
            && s.pool.poolTotal == s'.pool.poolTotal + tokens
            && s.pool.stakeTotal == s'.pool.stakeTotal + Paid(s, tokens)
            && s.bank.reserve == s'.bank.reserve + Paid(s, tokens)
            && s'.bank.reserve >= MIN_RESERVE_BALANCE
            && Supply(s) - Supply(s') == tokens
  {
    hide Withdrawn;
    var s' := Withdraw(s, tokens, rent).value;
    WithdrawExactly(s, tokens, rent);
    ShareWithinStake(s.pool, tokens);
    assert Listed(s'.validators, s'.bank.accounts) == Listed(s.validators, s.bank.accounts);
    assert Covered(s'.validators, s'.bank.accounts);
  }

  /** With the supply covered no withdrawal of tokens that exist fails on pricing; with a
      fee of at most one a deposit does only when its quotient needs over 64 bits. */
  lemma {:induction false} PricingFailures(s: State, n: u64, rent: Rent)
    ensures SupplyOk(s) && 0 < n <= s.bank.circulating ==> Withdraw(s, n, rent) != Err(CalculationFailure)
    ensures FeeOk(s) && Deposit(s, n, rent) == Err(CalculationFailure) ==>
              0 < s.pool.stakeTotal && n * s.pool.poolTotal / s.pool.stakeTotal >= U64_LIMIT
  {
    if SupplyOk(s) && 0 < n <= s.bank.circulating {
      ShareWithinStake(s.pool, n);
    }
    MulDivFails(n, s.pool.poolTotal, s.pool.stakeTotal);
    if FeeOk(s) && PoolDepositAmount(s.pool, n).Some? {
      FeeWithinAmount(s.pool, PoolDepositAmount(s.pool, n).value);
    }
  }

  /** The share price never falls through a deposit that wraps neither total, in any state,
      nor through a withdrawal from a covered supply. */
  lemma {:induction false} ExchangeKeepsPrice(s: State, n: u64, rent: Rent)
    ensures Deposit(s, n, rent).Ok?
            && s.pool.poolTotal + Minted(s, n) < U64_LIMIT && s.pool.stakeTotal + n < U64_LIMIT ==>
              var p := Deposit(s, n, rent).value.pool;
              PriceHolds(s.pool.stakeTotal, s.pool.poolTotal, p.stakeTotal, p.poolTotal)
    ensures SupplyOk(s) && Withdraw(s, n, rent).Ok? ==>
              var p := Withdraw(s, n, rent).value.pool;
              PriceHolds(s.pool.stakeTotal, s.pool.poolTotal, p.stakeTotal, p.poolTotal)
  {
    hide MulDiv, PriceHolds;
    if Deposit(s, n, rent).Ok? {
      DepositKeepsPrice(s.pool, n);
    }
    if SupplyOk(s) && Withdraw(s, n, rent).Ok? {
      WithdrawSupply(s, n, rent);
      WithdrawPriced(s, n, rent);
      WithdrawKeepsPrice(s.pool, n);
    }
  }
}

/** One trader against the pool. */
module Trading {
  import opened Machine
  import opened Data
  import opened Ledger
  import opened Pricing
  import opened Invariants
  import opened Exchange

  datatype Trade = In(amount: u64, rent: Rent) | Out(tokens: u64, rent: Rent)

  /** A trader's position: tokens held, lamports put in and lamports taken out. */
  datatype Position = Position(s: State, tokens: nat, put: nat, taken: nat)

  /** Tokens the trader keeps of a deposit; with `ownsFee` the fee is theirs too. */
  function Kept(s: State, amount: u64, ownsFee: bool): nat {
    var m := Minted(s, amount);
    match FeeAmount(s.pool, m)
    case Some(f) => if ownsFee || f > m then m else m - f
    case None => m
  }

  /** A trader who does not own the fee keeps all but exactly the fee's part, rounded down. */
  lemma {:induction false} KeptExactly(s: State, amount: u64)
    requires FeeOk(s)
    ensures var minted, kept := Minted(s, amount), Kept(s, amount, false);
            && kept <= minted && Kept(s, amount, true) == minted
            && (if s.pool.fee.denominator == 0 then kept == minted
                else IsQuotient(minted - kept, minted, s.pool.fee.numerator, s.pool.fee.denominator))
  {
    FeeWithinAmount(s.pool, Minted(s, amount));
  }

  /** One trade; a failing one changes nothing. The token program lets the
      trader burn no more than they hold. */
  function Do(p: Position, t: Trade, ownsFee: bool): Position {
    match t
    case In(amount, rent) =>
      (match Deposit(p.s, amount, rent)
       case Ok(s') => Position(s', p.tokens + Kept(p.s, amount, ownsFee), p.put + amount, p.taken)
       case Err(_) => p)
    case Out(tokens, rent) =>
      if tokens > p.tokens then p else
      match Withdraw(p.s, tokens, rent)
      case Ok(s') => Position(s', p.tokens - tokens, p.put, p.taken + Paid(p.s, tokens))
      case Err(_) => p
  }

  function DoAll(p: Position, ts: seq<Trade>, ownsFee: bool): Position
    decreases |ts|
  {
    if ts == [] then p else DoAll(Do(p, ts[0], ownsFee), ts[1..], ownsFee)
  }

  /** The recorded token total does not wrap in this trade. */
  predicate Wrapless(s: State, t: Trade) {
    t.In? && Deposit(s, t.amount, t.rent).Ok? ==> s.pool.poolTotal + Minted(s, t.amount) < U64_LIMIT
  }

  /** No deposit of the sequence wraps it. */
  predicate WraplessAll(p: Position, ts: seq<Trade>, ownsFee: bool)
    decreases |ts|
  {
    ts == [] || (Wrapless(p.s, ts[0]) && WraplessAll(Do(p, ts[0], ownsFee), ts[1..], ownsFee))
  }

  /** The trader's tokens are worth no more than the lamports still in the pool from them,
      who is never ahead. */
  predicate Fair(p: Position) {
    && p.tokens <= p.s.pool.poolTotal
    && p.taken <= p.put
    && p.tokens * p.s.pool.stakeTotal <= (p.put - p.taken) * p.s.pool.poolTotal
  }

  /** Something to check before trading: the recorded total is the supply; or the stake is
      backed and a token is worth a lamport or more, or all lamports there are would not
      buy 2^64 tokens. */
  predicate CannotWrap(s: State) {
    || Supply(s) == s.pool.poolTotal
    || ( && s.pool.stakeTotal <= Assets(s) && Capital(s) < U64_LIMIT
         && Bounded(s.pool.stakeTotal, s.pool.poolTotal, Capital(s)))
  }

  predicate Bounded(stake: nat, total: nat, capital: nat) {
    total <= stake || capital * total < U64_LIMIT * stake
  }

  lemma {:induction false} Assoc(a: nat, b: nat, c: nat)
    ensures a * (b * c) == a * b * c
  {
  }

  lemma {:induction false} Swap(a: nat, b: nat, c: nat)
    ensures a * (b * c) == b * (a * c)
  {
    Assoc(a, b, c);
    Assoc(b, a, c);
  }

  lemma {:induction false} Spread(a: nat, b: nat, c: nat)
    ensures a * (b + c) == a * b + a * c
  {
  }

  lemma {:induction false} Cancel(x: nat, y: nat, c: nat)
    requires c > 0 && x * c <= y * c
    ensures x <= y
  {
    if x > y {
      MulMono(y + 1, c, x, c);
    }
  }

  /** If t*s <= n*p, m*s = a*p - r and n <= s then t*a <= n*m + r. */
  lemma {:induction false} InCross(t: nat, s: nat, n: nat, p: nat, a: nat, m: nat, r: nat)
    requires t * s <= n * p && n <= s && 0 < s && m * s + r == a * p
    ensures t * a <= n * m + r
  {
    calc {
      s * (t * a);
    ==  { Swap(s, t, a); Assoc(t, s, a); assert t * s * a == a * (t * s); }
      a * (t * s);
    <=  { MulMono(a, t * s, a, n * p); }
      a * (n * p);
    ==  { Swap(a, n, p); }
      n * (m * s + r);
    ==  { Spread(n, m * s, r); }
      n * (m * s) + n * r;
    <=  { MulMono(n, r, s, r); }
      n * (m * s) + s * r;
    ==  { Assoc(n, m, s); }
      s * (n * m) + s * r;
    ==  { Spread(s, n * m, r); }
      s * (n * m + r);
    }
    Cancel(t * a, n * m + r, s);
  }

  /** If n*p = t*s + d then p*(n*q) = t*(q*s) + q*d. */
  lemma {:induction false} Scaled(t: nat, s: nat, n: nat, p: nat, q: nat, d: nat)
    requires n * p == t * s + d
    ensures p * (n * q) == t * (q * s) + q * d
  {
    calc {
      p * (n * q);
    ==  { Swap(p, n, q); Swap(q, n, p); assert n * (p * q) == n * (q * p); }
      q * (n * p);
    ==
      q * (t * s + d);
    ==  { Spread(q, t * s, d); Swap(q, t, s); }
      t * (q * s) + q * d;
    }
  }

  lemma {:induction false} OutBound(t: nat, p: nat, q: nat, w: nat, r: nat, d: nat)
    requires q <= p && t <= p
    ensures t * (w * p + r) + q * d <= p * (t * w + r + d)
  {
    Spread(t, w * p, r);
    Swap(t, w, p);
    MulMono(t, r, p, r);
    MulMono(q, d, p, d);
    Spread(p, t * w, r);
    Spread(p, t * w + r, d);
    TimesSwap(t, w, p);
  }

  lemma {:induction false} TimesSwap(t: nat, w: nat, p: nat)
    ensures t * (w * p) == p * (t * w)
  {
    Assoc(t, w, p);
  }

  /** If n*p = t*s + d, w*p = q*s - r and q, t <= p then n*q <= t*w + r + d. */
  lemma {:induction false} OutCross(t: nat, s: nat, n: nat, p: nat, q: nat, w: nat, r: nat, d: nat)
    requires n * p == t * s + d && q <= p && t <= p && 0 < p && w * p + r == q * s
    ensures n * q <= t * w + r + d
  {
    Scaled(t, s, n, p, q, d);
    OutBound(t, p, q, w, r, d);
    CancelLeft(n * q, t * w + r + d, p);
  }

  lemma {:induction false} CancelLeft(x: nat, y: nat, c: nat)
    requires c > 0 && c * x <= c * y
    ensures x <= y
  {
    Cancel(x, y, c);
  }

  /** With m = floor(a*p/s), or m = a when s is 0: rounding down on the way in never helps. */
  lemma {:induction false} InNeverGains(t: nat, s: nat, n: nat, p: nat, a: nat, m: nat)
    requires t * s <= n * p && t <= p
    requires if s == 0 then m == a else m * s <= a * p
    ensures (t + m) * (s + a) <= (n + a) * (p + m)
  {
    if s == 0 || s < n {
      MulMono(t, a, p, a);
      MulMono(m, s, m, n);
    } else {
      InCross(t, s, n, p, a, m, a * p - m * s);
    }
    assert (t + m) * (s + a) == t * s + t * a + m * s + m * a;
    assert (n + a) * (p + m) == n * p + n * m + a * p + m * a;
  }

  /** With w = floor(q*s/p): rounding down on the way out never helps. */
  lemma {:induction false} OutNeverGains(t: nat, s: nat, n: nat, p: nat, q: nat, w: nat)
    requires t * s <= n * p && q <= t <= p && 0 < p
    requires w * p <= q * s
    ensures w <= n && (t - q) * (s - w) <= (n - w) * (p - q)
  {
    MulMono(q, s, t, s);
    Cancel(w, n, p);
    OutCross(t, s, n, p, q, w, q * s - w * p, n * p - t * s);
    assert (t - q) * (s - w) == t * s - t * w - q * s + q * w;
    assert (n - w) * (p - q) == n * p - n * q - w * p + q * w;
  }

  /** A deposit, from any state: a wrapped stake total only lowers what tokens are worth. */
  lemma {:induction false} InStaysFair(p: Position, amount: u64, rent: Rent, ownsFee: bool)
    requires Fair(p) && Wrapless(p.s, In(amount, rent)) && Deposit(p.s, amount, rent).Ok?
    ensures Fair(Do(p, In(amount, rent), ownsFee))
  {
    var pool, m := p.s.pool, Minted(p.s, amount);
    var n, t' := p.put - p.taken, p.tokens + Kept(p.s, amount, ownsFee);
    var stake' := WrapAdd64(pool.stakeTotal, amount);
    if pool.stakeTotal != 0 {
      MulDivFloor(amount, pool.poolTotal, pool.stakeTotal);
    }
    InNeverGains(p.tokens, pool.stakeTotal, n, pool.poolTotal, amount, m);
    MulMono(t', stake', p.tokens + m, pool.stakeTotal + amount);
  }

  lemma {:induction false} OutStaysFair(p: Position, tokens: u64, rent: Rent, ownsFee: bool)
    requires Fair(p) && tokens <= p.tokens && Withdraw(p.s, tokens, rent).Ok?
    ensures Fair(Do(p, Out(tokens, rent), ownsFee))
  {
    var pool := p.s.pool;
    WithdrawPriced(p.s, tokens, rent);
    ShareWithinStake(pool, tokens);
    MulDivFloor(tokens, pool.stakeTotal, pool.poolTotal);
    OutNeverGains(p.tokens, pool.stakeTotal, p.put - p.taken, pool.poolTotal, tokens, Paid(p.s, tokens));
  }

  lemma {:induction false} DoStaysFair(p: Position, t: Trade, ownsFee: bool)
    requires Fair(p) && Wrapless(p.s, t)
    ensures Fair(Do(p, t, ownsFee))
  {
    hide Fair, Deposit, Withdraw, Minted, Paid, Kept;
    match t
    case In(amount, rent) =>
      if Deposit(p.s, amount, rent).Ok? {
        InStaysFair(p, amount, rent, ownsFee);
      }
    case Out(tokens, rent) =>
      if tokens <= p.tokens && Withdraw(p.s, tokens, rent).Ok? {
        OutStaysFair(p, tokens, rent, ownsFee);
      }
  }

  /** At every point of any sequence of trades in which no deposit wraps, the trader's
      tokens are worth no more than what is still in the pool from them. */
  lemma {:induction false} DoAllStaysFair(p: Position, ts: seq<Trade>, ownsFee: bool)
    requires Fair(p) && WraplessAll(p, ts, ownsFee)
    ensures Fair(DoAll(p, ts, ownsFee))
    decreases |ts|
  {
    hide Fair, Do, Wrapless;
    if ts != [] {
      DoStaysFair(p, ts[0], ownsFee);
      DoAllStaysFair(Do(p, ts[0], ownsFee), ts[1..], ownsFee);
    }
  }

  /** No profit from rounding: from any state at all, no sequence of deposits and
      withdrawals takes out more lamports than it put in, unless one of its deposits wraps
      the recorded total. Zero stake, zero supply and the deposit fee are included, even
      for a trader who also collects the fee. */
  lemma {:induction false} NoProfitFromRounding(s: State, ts: seq<Trade>, ownsFee: bool)
    requires WraplessAll(Position(s, 0, 0, 0), ts, ownsFee)
    ensures var p := DoAll(Position(s, 0, 0, 0), ts, ownsFee); p.taken <= p.put
  {
    DoAllStaysFair(Position(s, 0, 0, 0), ts, ownsFee);
  }

  // ---- when no deposit can wrap

  /** While the price does not fall, tokens worth a lamport stay so. */
  lemma {:induction false} WorthCarries(s: nat, p: nat, s': nat, p': nat)
    requires PriceHolds(s, p, s', p') && p <= s && 0 < s
    ensures p' <= s'
  {
    MulMono(s', p, s', s);
    Cancel(p', s', s);
  }

  /** So do tokens of which `c` lamports buy fewer than `limit`. */
  lemma {:induction false} BoundCarries(c: nat, limit: nat, s: nat, p: nat, s': nat, p': nat)
    requires PriceHolds(s, p, s', p') && c * p < limit * s && 0 < s
    ensures if s' == 0 then p' == 0 else c * p' < limit * s'
  {
    if s' == 0 {
      Cancel(p', 0, s);
    } else if c * p' >= limit * s' {
      Swap(s, limit, s');
      Swap(s', limit, s);
      assert s * s' == s' * s;
      assert s' * (limit * s - 1) == s' * (limit * s) - s';
      calc {
        s * (limit * s');
      <=  { MulMono(s, limit * s', s, c * p'); }
        s * (c * p');
      ==  { Swap(s, c, p'); }
        c * (s * p');
      <=  { MulMono(c, s * p', c, s' * p); }
        c * (s' * p);
      ==  { Swap(c, s', p); }
        s' * (c * p);
      <=  { MulMono(s', c * p, s', limit * s - 1); }
        s' * (limit * s - 1);
      }
    }
  }

  /** And `a` of those lamports, put in on top of `s`, leave fewer than `limit` tokens. */
  lemma {:induction false} BoundHolds(c: nat, limit: nat, s: nat, p: nat, s': nat, p': nat)
    requires PriceHolds(s, p, s', p') && c * p < limit * s && 0 < s && s' <= c
    ensures p' < limit
  {
    MulMono(s', p, c, p);
    if p' >= limit {
      MulMono(s, limit, s, p');
    }
  }

  lemma {:induction false} BoundedCarries(s: nat, p: nat, s': nat, p': nat, c: nat)
    requires Bounded(s, p, c) && PriceHolds(s, p, s', p')
    requires s == 0 && p == 0 ==> p' <= s'
    ensures Bounded(s', p', c)
    ensures s' <= c < U64_LIMIT ==> p' < U64_LIMIT
  {
    if p <= s {
      if s > 0 {
        WorthCarries(s, p, s', p');
      }
    } else {
      BoundCarries(c, U64_LIMIT, s, p, s', p');
      if s' <= c {
        BoundHolds(c, U64_LIMIT, s, p, s', p');
      }
    }
  }

  lemma {:induction false} DepositCannotWrap(s: State, amount: u64, rent: Rent)
    requires CannotWrap(s) && Deposit(s, amount, rent).Ok?
    ensures s.pool.poolTotal + Minted(s, amount) < U64_LIMIT
    ensures CannotWrap(Deposit(s, amount, rent).value)
  {
    hide MulDiv, Bounded, PriceHolds, Listed;
    if Supply(s) == s.pool.poolTotal {
      ExactSupplyNeverWraps(s, amount, rent);
    } else {
      var s' := Deposit(s, amount, rent).value;
      DepositKeepsPrice(s.pool, amount);
      StakesUntouched(s, s');
      assert Assets(s') == Assets(s) + amount;
      BoundedCarries(s.pool.stakeTotal, s.pool.poolTotal,
                     s.pool.stakeTotal + amount, s.pool.poolTotal + Minted(s, amount), Capital(s));
    }
  }

  lemma {:induction false} WithdrawCannotWrap(s: State, tokens: u64, rent: Rent)
    requires CannotWrap(s) && tokens <= s.pool.poolTotal && Withdraw(s, tokens, rent).Ok?
    ensures CannotWrap(Withdraw(s, tokens, rent).value)
  {
    hide MulDiv, Bounded, PriceHolds, Listed;
    var s' := Withdraw(s, tokens, rent).value;
    WithdrawPriced(s, tokens, rent);
    WithdrawKeepsPrice(s.pool, tokens);
    StakesUntouched(s, s');
    if Supply(s) != s.pool.poolTotal {
      assert Assets(s') == Assets(s) - Paid(s, tokens);
      BoundedCarries(s.pool.stakeTotal, s.pool.poolTotal, s'.pool.stakeTotal, s'.pool.poolTotal, Capital(s));
    }
  }

  /** The condition lasts through any trades. */
  lemma {:induction false} NoneCanWrap(p: Position, ts: seq<Trade>, ownsFee: bool)
    requires Fair(p) && CannotWrap(p.s)
    ensures WraplessAll(p, ts, ownsFee)
    decreases |ts|
  {
    hide CannotWrap, Deposit, Withdraw, Minted, Paid, Kept;
    if ts != [] {
      match ts[0] {
        case In(amount, rent) =>
          if Deposit(p.s, amount, rent).Ok? {
            DepositCannotWrap(p.s, amount, rent);
          }
        case Out(tokens, rent) =>
          if tokens <= p.tokens && Withdraw(p.s, tokens, rent).Ok? {
            WithdrawCannotWrap(p.s, tokens, rent);
          }
      }
      DoStaysFair(p, ts[0], ownsFee);
      NoneCanWrap(Do(p, ts[0], ownsFee), ts[1..], ownsFee);
    }
  }

  /** So whoever checks the condition first knows that no trades whatever make a profit. */
  lemma {:induction false} NoProfitWhenBounded(s: State, ts: seq<Trade>, ownsFee: bool)
    requires CannotWrap(s)
    ensures var p := DoAll(Position(s, 0, 0, 0), ts, ownsFee); p.taken <= p.put
  {
    NoneCanWrap(Position(s, 0, 0, 0), ts, ownsFee);
    NoProfitFromRounding(s, ts, ownsFee);
  }
}
