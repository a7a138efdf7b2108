/** Runs that show the excluded cases are real, at any rent up to the cluster's default. */
module Counterexamples {
  import opened Machine
  import opened Data
  import opened Ledger
  import opened Invariants
  import opened Pricing
  import opened Exchange
  import opened Trading
  import opened Credits
  import opened Staking
  import opened Upkeep
  import opened Runs

  /** Two years' rent of an empty account, a token account and a stake account, at most at
      the default rate. */
  type OrdinaryRent = r: Rent | r.empty <= 890_880 && r.token <= 2_039_280 && r.stake <= 2_282_880 witness Rent(0, 0, 0)

  lemma {:induction false} ExecSnoc(s: State, steps: seq<Step>, step: Step)
    ensures Exec(s, steps + [step]) == After(Exec(s, steps), step)
  {
    assert (steps + [step])[..|steps|] == steps;
  }

  /** A new, feeless pool with an empty reserve. */
  ghost predicate Fresh(s: State, outside: u64) {
    Init(s) && s.pool.fee == Fee(0, 0) && s.bank.reserve == 0 && s.bank.outside == outside
  }

  lemma {:induction false} FreshFields(s: State, outside: u64)
    requires Fresh(s, outside)
    ensures s.pool.stakeTotal == s.pool.poolTotal == s.bank.circulating == s.bank.escrow == 0
    ensures s.validators == [] && s.credits == [] && s.pool.lastUpdateEpoch == s.bank.epoch
  {
  }

  /** There is such a pool, with no lamports at any stake address. */
  lemma {:induction false} FreshExists(outside: u64) returns (s: State)
    ensures Fresh(s, outside) && s.bank.accounts == map[]
  {
    var key := Pubkey(seq(32, _ => 0));
    var blank := State(StakePool(0, key, 0, 0, key, key, key, key, key, key, 0, 0, 0, Fee(0, 0)), [], [],
                       Bank(0, map[], 0, 0, outside, 0));
    assert Blank(blank);
    s := Initialize(blank, Fee(0, 0)).value;
  }

  /** The first deposit into a feeless pool mints one token a lamport. */
  lemma {:induction false} FirstDeposit(s: State, amount: u64, rent: OrdinaryRent)
    requires s.pool.fee == Fee(0, 0) && s.pool.stakeTotal == s.pool.poolTotal == 0
    requires s.bank.reserve == s.bank.circulating == s.bank.escrow == 0
    requires 3_000_000 <= amount <= s.bank.outside
    ensures After(s, DepositStep(amount, rent))
         == s.(pool := s.pool.(stakeTotal := amount, poolTotal := amount),
               bank := s.bank.(reserve := amount, circulating := amount, outside := s.bank.outside - amount))
  {
  }

  function PayRun(a: Pubkey, b: Pubkey, rent: OrdinaryRent): seq<Step> {
    [DepositStep(10_000_000, rent)] + [CreditStep(5_000_000, a, a, true)] + [CreditStep(5_000_000, b, b, true)]
      + [DonateStep(20_000_000)]
  }

  /** Two creditors hold half the pool each and lamports were sent to the reserve.
      One batch pays 5 million to the first and 10 million to the second, more than
      the 10 million recorded, and the recorded stake wraps. */
  lemma {:induction false} BatchOverdraws(s0: State, a: Pubkey, b: Pubkey, rent: OrdinaryRent)
    requires Fresh(s0, 30_000_000) && a != b
    ensures var s := Exec(s0, PayRun(a, b, rent));
            var users := [UserInfo(a, true), UserInfo(b, true)];
            && PayCreditors(s, users, rent).Ok?
            && BatchTotal(s, users, rent) == 15_000_000 && s.pool.stakeTotal == 10_000_000
            && !Backed(PayCreditors(s, users, rent).value)
  {
    hide MulDiv;
    var s := PayRunState(s0, a, b, rent);
    var users := [UserInfo(a, true), UserInfo(b, true)];
    HalvesPaid(s.pool, PayStart(s), users, s.credits, Spendable(s, rent));
  }

  /** Called with no account at all, a payment still pulls the first creditor off the
      queue, and the creditor is lost. */
  lemma {:induction false} NoAccountsLosesHead(s: State, rent: Rent)
    requires s.credits != [] && s.pool.lastUpdateEpoch >= s.bank.epoch
    ensures PayCreditors(s, [], rent) == Ok(s.(credits := s.credits[1..]))
  {
    assert s.credits[1..] + [] == s.credits[1..];
  }

  /** In that run's state it takes two such calls to lose both creditors, whose ten
      million tokens stay in escrow with no record left to claim them. */
  lemma {:induction false} CreditorsLost(s0: State, a: Pubkey, b: Pubkey, rent: OrdinaryRent)
    requires Fresh(s0, 30_000_000) && a != b
    ensures var s := Exec(s0, PayRun(a, b, rent) + [PayCreditorsStep([], rent)] + [PayCreditorsStep([], rent)]);
            s.credits == [] && s.bank.escrow == 10_000_000 && s.pool.poolTotal == 10_000_000
  {
    hide Next;
    var s := PayRunState(s0, a, b, rent);
    var p := PayCreditorsStep([], rent);
    ExecSnoc(s0, PayRun(a, b, rent), p);
    ExecSnoc(s0, PayRun(a, b, rent) + [p], p);
    PayNobody(s, rent);
    PayNobody(After(s, p), rent);
  }

  lemma {:induction false} PayNobody(s: State, rent: OrdinaryRent)
    requires s.credits != [] && s.pool.lastUpdateEpoch >= s.bank.epoch
    ensures After(s, PayCreditorsStep([], rent)) == s.(credits := s.credits[1..])
  {
    NoAccountsLosesHead(s, rent);
  }

  lemma {:induction false} Quotients()
    ensures MulDiv(5_000_000, 10_000_000, 10_000_000) == Some(5_000_000)
    ensures MulDiv(5_000_000, 10_000_000, 5_000_000) == Some(10_000_000)
    ensures MulDiv(4_700_000_000, BIG, 103_000_000) == Some(18_252_427_184_466_019_417)
    ensures MulDiv(205_683_110_756_467_801, 4_803_000_000, 205_683_110_756_467_801) == Some(4_803_000_000)
  {
  }

  lemma {:induction false} HalvesPaid(pool: StakePool, w0: PayWork, users: seq<UserInfo>, queue: seq<CreditRecord>,
                                      available: u64)
    requires pool.stakeTotal == pool.poolTotal == w0.poolTotal == w0.escrow == 10_000_000
    requires w0.reserve == 30_000_000 && w0.outside == 0 && w0.total == 0 && 15_000_000 <= available && w0.invalid == []
    requires |users| == |queue| == 2 && users[0].systemOwned && users[1].systemOwned
    requires users[0].key == queue[0].solTarget && users[1].key == queue[1].solTarget
    requires queue[0].tokenAmount == queue[1].tokenAmount == 5_000_000
    ensures PayLoop(pool, w0, users, queue, available).Ok?
    ensures PayLoop(pool, w0, users, queue, available).value.total == 15_000_000
    ensures PayLoop(pool, w0, users, queue, available).value.reserve == 15_000_000
  {
    hide MulDiv;
    Quotients();
    var w1 := Settled(w0, 5_000_000, 5_000_000);
    var w2 := Settled(w1, 5_000_000, 10_000_000);
    assert PayOne(pool, w0, users[0], queue[0], available) == Pay(5_000_000);
    assert PayOne(pool, w1, users[1], queue[1], available) == Pay(10_000_000);
    assert users[1..][1..] == [] && queue[1..][1..] == [];
    assert PayLoop(pool, w2, [], [], available).Ok?;
    assert PayLoop(pool, w1, users[1..], queue[1..], available) == PayLoop(pool, w2, [], [], available);
  }

  lemma {:induction false} PayRunState(s0: State, a: Pubkey, b: Pubkey, rent: OrdinaryRent) returns (s: State)
    requires Fresh(s0, 30_000_000) && a != b
    ensures s == Exec(s0, PayRun(a, b, rent))
    ensures s.pool.stakeTotal == s.pool.poolTotal == s.bank.escrow == 10_000_000
    ensures s.bank.reserve == 30_000_000 && s.bank.outside == 0 && s.pool.lastUpdateEpoch == s.bank.epoch
    ensures s.credits == [CreditRecord(a, a, 5_000_000), CreditRecord(b, b, 5_000_000)]
    ensures s.validators == []
  {
    var d := DepositStep(10_000_000, rent);
    var c1, c2 := CreditStep(5_000_000, a, a, true), CreditStep(5_000_000, b, b, true);
    hide Deposit;
    var s1 := After(s0, d);
    FirstDeposit(s0, 10_000_000, rent);
    assert Exec(s0, []) == s0;
    ExecSnoc(s0, [], d);
    assert [] + [d] == [d];
    var s2 := After(s1, c1);
    ExecSnoc(s0, [d], c1);
    assert s2.credits == [CreditRecord(a, a, 5_000_000)];
    var s3 := After(s2, c2);
    ExecSnoc(s0, [d] + [c1], c2);
    assert s3.credits == [CreditRecord(a, a, 5_000_000), CreditRecord(b, b, 5_000_000)];
    s := After(s3, DonateStep(20_000_000));
    ExecSnoc(s0, [d] + [c1] + [c2], DonateStep(20_000_000));
  }

  const BIG: u64 := 400_000_000_000_000_000
  const REST: u64 := 399_999_999_897_000_000

  /** Deposit, burn the tokens directly, delegate 0.1 SOL to a new stake account and
      nearly all the rest to the same account, then refresh the pool. */
  function StaleRun(v: Pubkey, rent: OrdinaryRent): seq<Step> {
    [DepositStep(BIG, rent)] + [AddValidatorStep(v)] + [BurnStep(BIG)]
      + [Delegation(v, 0, MIN_STAKE_ACCOUNT_BALANCE, rent)] + [Delegation(v, 0, REST, rent)]
      + [UpdatePoolStep] + [DonateStep(1_000_000_000)]
  }

  function Delegation(v: Pubkey, index: u32, amount: u64, rent: OrdinaryRent): Step {
    DelegateStep([DelegateReserveInstruction(amount, index)], [Wallet(v), Pda(StakeKey(v, index))], rent)
  }

  /** One delegation to a stake account of the only validator. */
  lemma {:induction false} DelegationState(s: State, v: Pubkey, index: u32, amount: u64, rent: OrdinaryRent)
    requires |s.validators| == 1 && s.validators[0].validator == v && index <= s.validators[0].stakeCount
    requires MIN_STAKE_ACCOUNT_BALANCE <= amount && amount + 3_000_000 <= s.bank.reserve
    requires At(s.bank.accounts, StakeKey(v, index)).lamports + amount < U64_LIMIT
    requires var acc := At(s.bank.accounts, StakeKey(v, index));
             if acc.System? then acc.lamports == 0 else Delegable(acc.state)
    ensures var r, lamports := s.validators[0], At(s.bank.accounts, StakeKey(v, index)).lamports + amount;
            && Next(s, Delegation(v, index, amount, rent)).Ok?
            && After(s, Delegation(v, index, amount, rent))
            == s.(validators := if index < r.stakeCount then s.validators
                                else [r.(balance := WrapAdd64(r.balance, amount), stakeCount := WrapAdd32(index, 1))],
                  bank := s.bank.(reserve := s.bank.reserve - amount,
                                  accounts := s.bank.accounts[StakeKey(v, index) :=
                                                              Stake(lamports, FreshStake(lamports, rent))]))
  {
    var step := Delegation(v, index, amount, rent);
    var e, keys := step.delegations[0], step.keys;
    assert Find(s.validators, v) == Some(0);
    var w := Delegate(Start(s), 0, e, rent);
    assert DelegateOne(Start(s), e, keys[0], keys[1], Spendable(s, rent), rent) == Ok(w);
    assert step.delegations[1..] == [];
    assert DelegateLoop(w, [], keys[2..], Spendable(s, rent), rent) == Ok(w);
    assert DelegateLoop(Start(s), step.delegations, keys, Spendable(s, rent), rent) == Ok(w);
    assert |w.list| == 1;
  }

  /** Up to the burn: one validator, no stakes, no tokens, everything in the reserve. */
  lemma {:induction false} StaleStart(s0: State, v: Pubkey, rent: OrdinaryRent) returns (s: State)
    requires Fresh(s0, 500_000_000_000_000_000) && StakeKey(v, 0) !in s0.bank.accounts
    ensures s == Exec(s0, [DepositStep(BIG, rent)] + [AddValidatorStep(v)] + [BurnStep(BIG)])
    ensures s == After(After(After(s0, DepositStep(BIG, rent)), AddValidatorStep(v)), BurnStep(BIG))
    ensures s.validators == [ValidatorStakeInfo(v, 0, s0.bank.epoch, 0)]
    ensures s.pool == s0.pool.(poolTotal := BIG, stakeTotal := BIG)
    ensures s.bank == s0.bank.(reserve := BIG, outside := 100_000_000_000_000_000)
  {
    hide Deposit, Init;
    var d, v', b := DepositStep(BIG, rent), AddValidatorStep(v), BurnStep(BIG);
    FreshFields(s0, 500_000_000_000_000_000);
    FirstDeposit(s0, BIG, rent);
    assert [] + [d] == [d];
    ExecSnoc(s0, [], d);
    ExecSnoc(s0, [d], v');
    ExecSnoc(s0, [d] + [v'], b);
    var s1 := After(s0, d);
    var s2 := After(s1, v');
    assert s2.validators == [ValidatorStakeInfo(v, 0, s0.bank.epoch, 0)];
    s := After(s2, b);
  }

  /** The second delegation grows no stake count, so its balance is not stored, and a
      refresh in the same epoch records 0.103 SOL for a pool that holds 400 million. */
  lemma {:induction false} StaleCacheCollapsesPrice(s0: State, v: Pubkey, rent: OrdinaryRent) returns (s: State)
    requires Fresh(s0, 500_000_000_000_000_000) && StakeKey(v, 0) !in s0.bank.accounts
    ensures s == Exec(s0, StaleRun(v, rent)) && Inv(s)
    ensures s.pool.poolTotal == BIG && s.pool.stakeTotal == 103_000_000 && Assets(s) == BIG + 1_000_000_000
    ensures Supply(s) == 0 && s.bank.reserve == 1_003_000_000 && s.pool.fee == Fee(0, 0)
    ensures s.bank.outside == 99_999_999_000_000_000
  {
    hide Inv, Init, Next, Exec;
    var s3 := StaleStart(s0, v, rent);
    FreshFields(s0, 500_000_000_000_000_000);
    var first := [DepositStep(BIG, rent)] + [AddValidatorStep(v)] + [BurnStep(BIG)];
    var e1, e2 := Delegation(v, 0, MIN_STAKE_ACCOUNT_BALANCE, rent), Delegation(v, 0, REST, rent);
    var u, g := UpdatePoolStep, DonateStep(1_000_000_000);
    var s4, s5 := After(s3, e1), After(After(s3, e1), e2);
    DelegationState(s3, v, 0, MIN_STAKE_ACCOUNT_BALANCE, rent);
    ExecSnoc(s0, first, e1);
    DelegationState(s4, v, 0, REST, rent);
    ExecSnoc(s0, first + [e1], e2);
    var s6 := After(s5, u);
    ExecSnoc(s0, first + [e1] + [e2], u);
    s := After(s6, g);
    RefreshThenDonate(s5);
    ExecSnoc(s0, first + [e1] + [e2] + [u], g);
    OnlyAccount(s.validators, s.bank.accounts);
    InitOk(s0);
    StaleRunKeeps(s0, v, s3, s4, s5, s6, rent);
  }

  lemma {:induction false} RefreshThenDonate(s: State)
    requires |s.validators| == 1 && s.validators[0].lastUpdateEpoch == s.bank.epoch
    requires s.validators[0].balance == 100_000_000 && s.bank.reserve == 3_000_000 && s.bank.outside >= 1_000_000_000
    ensures After(After(s, UpdatePoolStep), DonateStep(1_000_000_000))
         == s.(pool := s.pool.(stakeTotal := 103_000_000, lastUpdateEpoch := s.bank.epoch),
               bank := s.bank.(reserve := 1_003_000_000, outside := s.bank.outside - 1_000_000_000))
  {
    assert TotalLoop(s.validators, 1, 103_000_000, s.bank.epoch) == Ok(103_000_000);
  }

  lemma {:induction false} OnlyAccount(list: seq<ValidatorStakeInfo>, accounts: Accounts)
    requires |list| == 1 && list[0].stakeCount == 1
    ensures Listed(list, accounts) == At(accounts, StakeKey(list[0].validator, 0)).lamports
  {
    var v := list[0].validator;
    assert Lamports(accounts, v, 1) == Lamports(accounts, v, 0) + At(accounts, StakeKey(v, 0)).lamports;
    assert ListedTo(list, accounts, 1) == ListedTo(list, accounts, 0) + OfRecord(list[0], accounts);
  }

  lemma {:induction false} StaleRunKeeps(s0: State, v: Pubkey, s3: State, s4: State, s5: State, s6: State,
                                         rent: OrdinaryRent)
    requires Inv(s0) && s0.pool.poolTotal == 0 && s0.pool.stakeTotal == 0
    requires s3 == After(After(After(s0, DepositStep(BIG, rent)), AddValidatorStep(v)), BurnStep(BIG))
    requires s4 == After(s3, Delegation(v, 0, MIN_STAKE_ACCOUNT_BALANCE, rent))
    requires s5 == After(s4, Delegation(v, 0, REST, rent))
    requires s6 == After(s5, UpdatePoolStep)
    ensures Inv(After(s6, DonateStep(1_000_000_000)))
  {
    hide Next, Inv;
    var s1 := After(s0, DepositStep(BIG, rent));
    StepKeeps(s0, DepositStep(BIG, rent));
    StepKeeps(s1, AddValidatorStep(v));
    StepKeeps(After(s1, AddValidatorStep(v)), BurnStep(BIG));
    StepKeeps(s3, Delegation(v, 0, MIN_STAKE_ACCOUNT_BALANCE, rent));
    StepKeeps(s4, Delegation(v, 0, REST, rent));
    StepKeeps(s5, UpdatePoolStep);
    StepKeeps(s6, DonateStep(1_000_000_000));
  }

  lemma {:induction false} StepKeeps(s: State, step: Step)
    requires Inv(s) && Safe(s, step)
    ensures Inv(After(s, step))
  {
    hide Inv, Safe;
    if Next(s, step).Ok? {
      NextKeeps(s, step);
    }
  }

  /** In that reachable state a deposit of 4.7 SOL wraps the token total. More tokens
      exist than the pool records, and the no-profit law fails for their holder. */
  lemma {:induction false} WrappingDepositBreaksLaws(s0: State, v: Pubkey, rent: OrdinaryRent)
    requires Fresh(s0, 500_000_000_000_000_000) && StakeKey(v, 0) !in s0.bank.accounts
    ensures var s := Exec(s0, StaleRun(v, rent));
            var p := DoAll(Position(s, 0, 0, 0), [In(4_700_000_000, rent), Out(205_683_110_756_467_801, rent)], false);
            && Inv(s)
            && Deposit(s, 4_700_000_000, rent).Ok?
            && Supply(Deposit(s, 4_700_000_000, rent).value) > Deposit(s, 4_700_000_000, rent).value.pool.poolTotal
            && p.put == 4_700_000_000 && p.taken == 4_803_000_000
  {
    hide MulDiv, Inv;
    var s := StaleCacheCollapsesPrice(s0, v, rent);
    TradeAfterWrap(s, rent);
  }

  lemma {:induction false} TradeAfterWrap(s: State, rent: OrdinaryRent)
    requires s.pool.poolTotal == BIG && s.pool.stakeTotal == 103_000_000 && s.pool.fee == Fee(0, 0)
    requires s.bank.circulating == s.bank.escrow == 0 && s.bank.reserve == 1_003_000_000
    requires s.bank.outside == 99_999_999_000_000_000
    ensures var p := DoAll(Position(s, 0, 0, 0), [In(4_700_000_000, rent), Out(205_683_110_756_467_801, rent)], false);
            p.put == 4_700_000_000 && p.taken == 4_803_000_000
    ensures Deposit(s, 4_700_000_000, rent).Ok?
    ensures Supply(Deposit(s, 4_700_000_000, rent).value) > Deposit(s, 4_700_000_000, rent).value.pool.poolTotal
  {
    hide MulDiv;
    Quotients();
    var p0 := Position(s, 0, 0, 0);
    var in', out' := In(4_700_000_000, rent), Out(205_683_110_756_467_801, rent);
    var p1 := Do(p0, in', false);
    assert p1.s.pool.poolTotal == 205_683_110_756_467_801;
    var p2 := Do(p1, out', false);
    assert [in', out'][1..] == [out'] && [out'][1..] == [];
    assert DoAll(p2, [], false) == p2;
    assert DoAll(p1, [out'], false) == p2;
  }

  // ---- the stake count at its limit

  const LAST: u32 := 0xFFFF_FFFF
  const POT: u64 := 500_000_000_000_000_000
  const CHANGE: u64 := 10_000_000

  /** The smallest delegation, to the first `n` indices in turn. */
  function Fill(v: Pubkey, n: nat, rent: OrdinaryRent): seq<Step>
    requires n < U32_LIMIT
  {
    if n == 0 then [] else Fill(v, n - 1, rent) + [Delegation(v, n - 1, MIN_STAKE_ACCOUNT_BALANCE, rent)]
  }

  function FillRun(v: Pubkey, n: nat, rent: OrdinaryRent): seq<Step>
    requires n < U32_LIMIT
  {
    [DepositStep(POT, rent)] + [AddValidatorStep(v)] + Fill(v, n, rent)
  }

  /** One validator with its first `n` stake accounts funded, and nothing beyond them. */
  ghost predicate FilledTo(s: State, v: Pubkey, n: nat, rent: OrdinaryRent) {
    && Inv(s)
    && |s.validators| == 1 && s.validators[0].validator == v && s.validators[0].stakeCount == n
    && s.bank.reserve == POT - n * MIN_STAKE_ACCOUNT_BALANCE
    && (forall i :: n <= i ==> StakeKey(v, i) !in s.bank.accounts)
    && (n > 0 ==>
          At(s.bank.accounts, StakeKey(v, 0))
            == Stake(MIN_STAKE_ACCOUNT_BALANCE, FreshStake(MIN_STAKE_ACCOUNT_BALANCE, rent)))
    && s.bank.outside == CHANGE
  }

  lemma {:induction false} FillNext(s: State, v: Pubkey, n: u32, rent: OrdinaryRent)
    requires FilledTo(s, v, n, rent) && n < LAST
    ensures FilledTo(After(s, Delegation(v, n, MIN_STAKE_ACCOUNT_BALANCE, rent)), v, n + 1, rent)
  {
    hide Next, Inv;
    DelegationState(s, v, n, MIN_STAKE_ACCOUNT_BALANCE, rent);
    StepKeeps(s, Delegation(v, n, MIN_STAKE_ACCOUNT_BALANCE, rent));
  }

  lemma {:induction false} FillStart(s0: State, v: Pubkey, rent: OrdinaryRent)
    requires Fresh(s0, POT + CHANGE) && (forall i :: StakeKey(v, i) !in s0.bank.accounts)
    ensures FilledTo(Exec(s0, [DepositStep(POT, rent)] + [AddValidatorStep(v)]), v, 0, rent)
  {
    var d, e := DepositStep(POT, rent), AddValidatorStep(v);
    FreshFields(s0, POT + CHANGE);
    FirstDeposit(s0, POT, rent);
    assert [] + [d] == [d];
    ExecSnoc(s0, [], d);
    ExecSnoc(s0, [d], e);
    InitOk(s0);
    StepKeeps(s0, d);
    StepKeeps(After(s0, d), e);
  }

  /** So any number of stake accounts the count can hold is reached by delegating. */
  lemma {:induction false} Filled(s0: State, v: Pubkey, n: nat, rent: OrdinaryRent)
    requires Fresh(s0, POT + CHANGE) && (forall i :: StakeKey(v, i) !in s0.bank.accounts) && n <= LAST
    ensures FilledTo(Exec(s0, FillRun(v, n, rent)), v, n, rent)
  {
    hide Next, Inv, FilledTo, Fresh;
    if n == 0 {
      FillStart(s0, v, rent);
      assert FillRun(v, 0, rent) == [DepositStep(POT, rent)] + [AddValidatorStep(v)];
    } else {
      var d := Delegation(v, n - 1, MIN_STAKE_ACCOUNT_BALANCE, rent);
      Filled(s0, v, n - 1, rent);
      FillNext(Exec(s0, FillRun(v, n - 1, rent)), v, n - 1, rent);
      ExecSnoc(s0, FillRun(v, n - 1, rent), d);
      assert FillRun(v, n, rent) == FillRun(v, n - 1, rent) + [d];
    }
  }

  /** One lamport of the first account split off into the last index. */
  function SplitLast(v: Pubkey, rent: OrdinaryRent): Step {
    UnstakeStep([UnstakeInstruction(v, 0, LAST, 1)], [Pda(StakeKey(v, 0)), Pda(StakeKey(v, LAST))], rent)
  }

  /** With all 2^32 - 1 counted, one more delegation, or a split, commits at the next
      index. The count wraps to zero and every stake account is out of reach. */
  lemma {:induction false} CountWraps(s0: State, v: Pubkey, rent: OrdinaryRent)
    requires Fresh(s0, POT + CHANGE) && (forall i :: StakeKey(v, i) !in s0.bank.accounts)
    ensures var s := Exec(s0, FillRun(v, LAST, rent));
            var d := Delegation(v, LAST, MIN_STAKE_ACCOUNT_BALANCE, rent);
            var u := SplitLast(v, rent);
            && Inv(s)
            && Next(s, d).Ok? && CountOf(Next(s, d).value.validators, v) == 0 && !StakesOk(Next(s, d).value)
            && Next(s, u).Ok? && CountOf(Next(s, u).value.validators, v) == 0 && !StakesOk(Next(s, u).value)
  {
    hide Exec, Fill, FillRun, Inv;
    var s := Exec(s0, FillRun(v, LAST, rent));
    Filled(s0, v, LAST, rent);
    DelegationState(s, v, LAST, MIN_STAKE_ACCOUNT_BALANCE, rent);
    assert Find(Next(s, Delegation(v, LAST, MIN_STAKE_ACCOUNT_BALANCE, rent)).value.validators, v) == Some(0);
    SplitState(s, v, rent);
    assert At(s.bank.accounts, StakeKey(v, 0)).Stake?;
  }

  lemma {:induction false} SplitState(s: State, v: Pubkey, rent: OrdinaryRent)
    requires FilledTo(s, v, LAST, rent)
    ensures var u := SplitLast(v, rent);
            && Next(s, u).Ok? && CountOf(Next(s, u).value.validators, v) == 0
            && StakeKey(v, LAST) in Next(s, u).value.bank.accounts
            && Next(s, u).value.bank.accounts[StakeKey(v, LAST)].Stake?
  {
    var e, keys := UnstakeInstruction(v, 0, LAST, 1), [Pda(StakeKey(v, 0)), Pda(StakeKey(v, LAST))];
    assert Find(s.validators, v) == Some(0);
    var w := Split(Start(s), 0, e, rent);
    assert UnstakeOne(Start(s), e, keys, rent) == Ok(w);
    assert [e][1..] == [];
    assert UnstakeLoop(w, [], keys[2..], rent) == Ok(w);
    assert UnstakeLoop(Start(s), [e], keys, rent) == Ok(w);
    assert Find(w.list, v) == Some(0);
  }
}
