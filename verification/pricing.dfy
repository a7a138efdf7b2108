/** The pool's exchange arithmetic: tokens for lamports at the rate
    stakeTotal / poolTotal, rounded down, in checked 128-bit products. */
module Pricing {
  import opened Machine
  import opened Data

  /** `a * b / c` with a checked 128-bit product, a checked division and a checked
      conversion back to 64 bits. */
  function MulDiv(a: u64, b: u64, c: u64): Option<u64> {
    if a * b >= U128_LIMIT || c == 0 || a * b / c >= U64_LIMIT then None
    else
      FloorNonNegative(a, b, c);
      Some(a * b / c)
  }

  function PoolWithdrawAmount(pool: StakePool, lamports: u64): Option<u64> {
    MulDiv(lamports, pool.poolTotal, pool.stakeTotal)
  }

  function PoolDepositAmount(pool: StakePool, lamports: u64): Option<u64> {
    if pool.stakeTotal == 0 then Some(lamports) else PoolWithdrawAmount(pool, lamports)
  }

  function LamportsAmount(pool: StakePool, tokens: u64): Option<u64> {
    MulDiv(tokens, pool.stakeTotal, pool.poolTotal)
  }

  function FeeAmount(pool: StakePool, tokens: u64): Option<u64> {
    if pool.fee.denominator == 0 then Some(0)
    else MulDiv(tokens, pool.fee.numerator, pool.fee.denominator)
  }

  lemma {:induction false} FloorNonNegative(a: u64, b: u64, c: u64)
    requires c > 0
    ensures 0 <= a * b / c
  {
    assert 0 <= a * b;
    Floor(a * b, c);
  }

  lemma {:induction false} Floor(n: nat, c: nat)
    requires c > 0
    ensures 0 <= n / c
    ensures n / c * c <= n < (n / c + 1) * c
  {
    assert n == n / c * c + n % c;
  }

  lemma {:induction false} MulMono(a: nat, b: nat, c: nat, d: nat)
    requires a <= c && b <= d
    ensures a * b <= c * d
  {
    assert a * b <= c * b;
    assert c * b <= c * d;
  }

  /** The 128-bit product of two 64-bit values never overflows, so pricing fails
      exactly on a zero divisor or a quotient that needs more than 64 bits. */
  lemma {:induction false} MulDivFails(a: u64, b: u64, c: u64)
    ensures MulDiv(a, b, c).None? <==> c == 0 || a * b / c >= U64_LIMIT
  {
    MulMono(a, b, U64_LIMIT - 1, U64_LIMIT - 1);
  }

  /** A successful quotient is the exact floor. */
  lemma {:induction false} MulDivFloor(a: u64, b: u64, c: u64)
    requires MulDiv(a, b, c).Some?
    ensures c > 0
    ensures MulDiv(a, b, c).value * c <= a * b < (MulDiv(a, b, c).value + 1) * c
  {
    assert 0 <= a * b;
    Floor(a * b, c);
  }

  /** Scaling down by a ratio of at most one always succeeds and never grows. */
  lemma {:induction false} MulDivShrinks(a: u64, b: u64, c: u64)
    requires 0 < c
    requires b <= c
    ensures MulDiv(a, b, c).Some? && MulDiv(a, b, c).value <= a
  {
    MulMono(a, b, U64_LIMIT - 1, U64_LIMIT - 1);
    MulMono(a, b, a, c);
    assert 0 <= a * b <= a * c;
    Floor(a * b, c);
    var q := a * b / c;
    assert (a + 1) * c == a * c + c;
    if q > a {
      MulMono(a + 1, c, q, c);
    }
  }

  /** A share of the pool is worth at most the whole pool. */
  lemma {:induction false} ShareWithinStake(pool: StakePool, tokens: u64)
    requires tokens <= pool.poolTotal && 0 < pool.poolTotal
    ensures LamportsAmount(pool, tokens).Some?
    ensures LamportsAmount(pool, tokens).value <= pool.stakeTotal
  {
    MulDivShrinks(pool.stakeTotal, tokens, pool.poolTotal);
    assert tokens * pool.stakeTotal == pool.stakeTotal * tokens;
  }

  /** The fee never exceeds what it is taken from when it is a ratio of at most one. */
  lemma {:induction false} FeeWithinAmount(pool: StakePool, tokens: u64)
    requires pool.fee.numerator <= pool.fee.denominator
    ensures FeeAmount(pool, tokens).Some? && FeeAmount(pool, tokens).value <= tokens
    ensures var fee := FeeAmount(pool, tokens).value;
            if pool.fee.denominator == 0 then fee == 0
            else IsQuotient(fee, tokens, pool.fee.numerator, pool.fee.denominator)
  {
    if pool.fee.denominator != 0 {
      MulDivShrinks(tokens, pool.fee.numerator, pool.fee.denominator);
      MulDivFloor(tokens, pool.fee.numerator, pool.fee.denominator);
    }
  }

  /** `q` is `a * b / c` rounded down. */
  predicate IsQuotient(q: nat, a: nat, b: nat, c: nat) {
    q * c <= a * b < (q + 1) * c
  }

  /** The share price stake/tokens does not fall from (s, p) to (s', p'). */
  predicate PriceHolds(s: nat, p: nat, s': nat, p': nat) {
    s * p' <= s' * p
  }

  /** A deposit mints its exact worth, rounded down, one token a lamport into an empty pool;
      so the price does not fall. */
  lemma {:induction false} DepositKeepsPrice(pool: StakePool, lamports: u64)
    requires PoolDepositAmount(pool, lamports).Some?
    ensures var minted := PoolDepositAmount(pool, lamports).value;
            if pool.stakeTotal == 0 then minted == lamports
            else IsQuotient(minted, lamports, pool.poolTotal, pool.stakeTotal)
    ensures PriceHolds(pool.stakeTotal, pool.poolTotal,
                       pool.stakeTotal + lamports,
                       pool.poolTotal + PoolDepositAmount(pool, lamports).value)
  {
    var s, p, m := pool.stakeTotal, pool.poolTotal, PoolDepositAmount(pool, lamports).value;
    if s == 0 {
      assert s * (p + m) == 0;
      MulMono(0, 0, s + lamports, p);
    } else {
      MulDivFloor(lamports, p, s);
      assert s * (p + m) == s * p + m * s;
      assert (s + lamports) * p == s * p + lamports * p;
    }
  }

  lemma {:induction false} WithdrawKeepsPrice(pool: StakePool, tokens: u64)
    requires tokens <= pool.poolTotal && 0 < pool.poolTotal
    ensures LamportsAmount(pool, tokens).Some?
    ensures LamportsAmount(pool, tokens).value <= pool.stakeTotal
    ensures IsQuotient(LamportsAmount(pool, tokens).value, tokens, pool.stakeTotal, pool.poolTotal)
    ensures PriceHolds(pool.stakeTotal, pool.poolTotal,
                       pool.stakeTotal - LamportsAmount(pool, tokens).value,
                       pool.poolTotal - tokens)
  {
    ShareWithinStake(pool, tokens);
    var s, p, w := pool.stakeTotal, pool.poolTotal, LamportsAmount(pool, tokens).value;
    MulDivFloor(tokens, s, p);
    assert s * (p - tokens) == s * p - tokens * s;
    assert (s - w) * p == s * p - w * p;
  }

  /** The same tokens are worth no less when more stake backs the same supply. */
  lemma {:induction false} MoreStakePaysMore(tokens: u64, s: u64, s': u64, p: u64)
    requires s <= s'
    requires MulDiv(tokens, s, p).Some? && MulDiv(tokens, s', p).Some?
    ensures MulDiv(tokens, s, p).value <= MulDiv(tokens, s', p).value
  {
    MulDivFloor(tokens, s, p);
    MulDivFloor(tokens, s', p);
    MulMono(tokens, s, tokens, s');
    var q: int := MulDiv(tokens, s, p).value;
    var q': int := MulDiv(tokens, s', p).value;
    if q > q' {
      MulMono(q' + 1, p, q, p);
    }
  }
}
