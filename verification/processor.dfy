/** The handlers as the program runs them: fields updated in place, batches in loops.
    Each does exactly what its specification function says, so what is proved of that
    holds of the object: its invariant, the lamports, the reserve floor, the price. */
module Processor {
  import opened Machine
  import opened Data
  import opened Ledger
  import opened Pricing
  import opened Invariants
  import E = Exchange
  import C = Credits
  import S = Staking
  import U = Upkeep
  import UP = UpkeepProofs
  import SC = StakingContents
  import UC = UpkeepContents
  import R = Runs
  import I = Instructions

  /** A run of a handler agrees with its specification: the same result, the
      specified state on success and, the runtime discarding all changes of a
      failed transaction, the old state on failure. */
  ghost predicate Ran(before: State, after: State, spec: Result<State, Error>, r: Result<(), Error>) {
    match spec
    case Ok(s) => r == Ok(()) && after == s
    case Err(e) => r == Err(e) && after == before
  }

  /** What the accounts passed with an instruction amount to. */
  datatype Context = Context(
    keys: seq<Address>, users: seq<C.UserInfo>, vote: Pubkey, target: Pubkey, authority: Pubkey,
    systemTarget: bool, signed: bool, owner: Pubkey, feeAccount: Pubkey, rent: Rent)

  /** The step a decoded instruction takes; two are no steps of an initialized pool. */
  function StepOf(i: I.PoolInstruction, c: Context): Option<R.Step> {
    match i
    case Initialize(_) => None
    case SetStakingAuthority => None
    case AddValidator => Some(R.AddValidatorStep(c.vote))
    case RemoveValidator => Some(R.RemoveValidatorStep(c.vote))
    case UpdateListBalance => Some(R.UpdateListStep(c.keys))
    case UpdatePoolBalance => Some(R.UpdatePoolStep)
    case Deposit(amount) => Some(R.DepositStep(amount, c.rent))
    case Withdraw(amount) => Some(R.WithdrawStep(amount, c.rent))
    case SetOwner => Some(R.SetOwnerStep(c.owner, c.feeAccount))
    case Credit(amount) => Some(R.CreditStep(amount, c.target, c.authority, c.systemTarget))
    case Uncredit(amount) => Some(R.UncreditStep(amount, c.target, c.authority, c.signed))
    case DelegateReserve(batch) => Some(R.DelegateStep(batch, c.keys, c.rent))
    case MergeStakes(batch) => Some(R.MergeStep(batch, c.keys))
    case Unstake(batch) => Some(R.UnstakeStep(batch, c.keys, c.rent))
    case PayCreditors => Some(R.PayCreditorsStep(c.users, c.rent))
  }

  /** What an instruction in its encoded form does to the pool. */
  function Outcome(s: State, data: seq<byte>, c: Context): Result<State, Error> {
    var i :- I.Deserialize(data);
    match StepOf(i, c)
    case Some(step) => R.Next(s, step)
    case None => if i.Initialize? then R.Initialize(s, i.fee) else Err(ProgramPanicked)
  }

  /** No arithmetic of the instruction wraps. */
  ghost predicate SafeInput(s: State, data: seq<byte>, c: Context) {
    I.Deserialize(data).Ok? && StepOf(I.Deserialize(data).value, c).Some? ==>
      R.Safe(s, StepOf(I.Deserialize(data).value, c).value)
  }

  lemma {:induction false} InputKeeps(s: State, data: seq<byte>, c: Context)
    requires s.pool.version > 0
    ensures var s' := Left(s, Outcome(s, data, c));
            && (Inv(s) && SafeInput(s, data, c) ==> Inv(s') && Capital(s') == Capital(s))
            && s'.pool.version > 0
            && (s.bank.reserve >= MIN_RESERVE_BALANCE ==> s'.bank.reserve >= MIN_RESERVE_BALANCE)
  {
    hide R.Next, I.Deserialize, StakesOk, Queued, Capital;
    if I.Deserialize(data).Ok? && StepOf(I.Deserialize(data).value, c).Some? {
      R.StepGuarantees(s, StepOf(I.Deserialize(data).value, c).value);
    }
  }

  /** The state a transaction leaves: a failed one changes nothing. */
  function Left(s: State, spec: Result<State, Error>): State {
    match spec case Ok(s') => s' case Err(_) => s
  }

  /** Go through the accounts handed in and the queue, side by side. */
  method PayQueue(pool: StakePool, start: C.PayWork, users: seq<C.UserInfo>, queue: seq<CreditRecord>, available: u64)
    returns (r: Result<C.PayWork, Error>)
    ensures r == C.PayLoop(pool, start, users, queue, available)
  {
    var w, i := start, 0;
    while i < |users| && i < |queue|
      invariant i <= |users| && i <= |queue|
      invariant C.PayLoop(pool, start, users, queue, available) == C.PayLoop(pool, w, users[i..], queue[i..], available)
    {
      var credit := queue[i];
      var step := C.PayOne(pool, w, users[i], credit, available);
      assert users[i..][1..] == users[i + 1..] && queue[i..][1..] == queue[i + 1..];
      match step {
        case Refuse(e) => return Err(e);
        case Skip =>
          w := w.(invalid := w.invalid + [credit]);
        case Stop =>
          // the creditor returns to the head of the list
          assert [credit] + queue[i + 1..] == queue[i..];
          return Ok(w.(kept := [credit] + queue[i + 1..]));
        case Pay(lamports) =>
          w := w.(escrow := w.escrow - credit.tokenAmount);
          w := w.(reserve := w.reserve - lamports, outside := w.outside + lamports);
          w := w.(poolTotal := WrapSub64(w.poolTotal, credit.tokenAmount), total := WrapAdd64(w.total, lamports));
      }
      i := i + 1;
    }
    // the last pull of the loop takes a credit even when no account is left
    return Ok(w.(kept := if i < |queue| then queue[i + 1..] else []));
  }

  /** All stake accounts of one validator, in order of their index. */
  method SweepValidator(start: U.Sweep, v: Pubkey, n: u32, keys: seq<Address>) returns (r: Result<U.Sweep, Error>)
    ensures r == U.SweepLoop(start, v, 0, n, keys)
    ensures r.Ok? && start.count == 0 ==> UC.SweptFrom(start, r.value, v, 0, n)
  {
    hide UC.SweptFrom;
    if U.SweepLoop(start, v, 0, n, keys).Ok? && start.count == 0 {
      UC.SweepLoopContents(start, v, 0, n, keys);
    }
    var w := start;
    var i: u32 := 0;
    while i < n
      invariant i <= n && i <= |keys|
      invariant U.SweepLoop(start, v, 0, n, keys) == U.SweepLoop(w, v, i, n, keys[i..])
    {
      if i == |keys| {
        return Err(NotEnoughAccountKeys);
      }
      assert keys[i..][1..] == keys[i + 1..];
      var done := U.SweepOne(w, v, i, keys[i]);
      if done.Err? {
        return Err(done.error);
      }
      w, i := done.value, i + 1;
    }
    return Ok(w);
  }

  /** The keys are vote accounts, each followed by the stake accounts of its validator. */
  method RefreshAll(start: U.ListWork, keys: seq<Address>, epoch: u64) returns (r: Result<U.ListWork, Error>)
    ensures r == U.RefreshLoop(start, keys, epoch)
  {
    hide U.SweepLoop;
    var w, next := start, 0;
    while next < |keys|
      invariant 0 <= next <= |keys|
      invariant U.RefreshLoop(start, keys, epoch) == U.RefreshLoop(w, keys[next..], epoch)
    {
      var found := S.FindVote(w.list, keys[next]);
      if found.None? {
        return Err(ValidatorNotFound);
      }
      var k := found.value;
      var validator := w.list[k];
      assert keys[next..][1..] == keys[next + 1..];
      var sweep := U.Sweep(w.accounts, w.reserve, 0, 0);
      var done := SweepValidator(sweep, validator.validator, validator.stakeCount, keys[next + 1..]);
      if done.Err? {
        return Err(done.error);
      }
      if |keys| - next < 1 + validator.stakeCount {
        return Err(NotEnoughAccountKeys);
      }
      sweep := done.value;
      assert keys[next..][1 + validator.stakeCount..] == keys[next + 1 + validator.stakeCount..];
      next := next + 1 + validator.stakeCount;
      validator := validator.(balance := sweep.balance, stakeCount := sweep.count, lastUpdateEpoch := epoch);
      w := U.ListWork(w.list[k := validator], sweep.accounts, sweep.reserve);
    }
    return Ok(w);
  }

  class StakePoolProgram {
    var pool: StakePool
    var validators: seq<ValidatorStakeInfo>
    var credits: seq<CreditRecord>
    var bank: Bank

    ghost function View(): State
      reads this
    {
      State(pool, validators, credits, bank)
    }

    /** The pool is in order. */
    ghost predicate Valid()
      reads this
    {
      Inv(View())
    }

    constructor (pool: StakePool, validators: seq<ValidatorStakeInfo>, credits: seq<CreditRecord>, bank: Bank)
      ensures View() == State(pool, validators, credits, bank)
    {
      this.pool, this.validators, this.credits, this.bank := pool, validators, credits, bank;
    }

    method ProcessInitialize(fee: Fee) returns (r: Result<(), Error>)
      modifies this
      ensures Ran(old(View()), View(), R.Initialize(old(View()), fee), r)
      ensures r.Ok? && old(R.Blank(View())) ==> Valid() && Supply(View()) == pool.poolTotal
      ensures r.Ok? ==> && pool == old(pool).(version := 1, fee := fee, lastUpdateEpoch := bank.epoch)
                        && validators == [] && credits == [] && bank == old(bank)
    {
      if pool.version > 0 {
        return Err(AlreadyInUse);
      }
      if fee.numerator > fee.denominator {
        return Err(FeeTooHigh);
      }
      if bank.circulating + bank.escrow > 0 {
        return Err(MintHasInitialSupply);
      }
      validators := [];
      credits := [];
      pool := pool.(version := 1, lastUpdateEpoch := bank.epoch, fee := fee);
      return Ok(());
    }

    method ProcessDeposit(amount: u64, rent: Rent) returns (r: Result<(), Error>)
      modifies this
      ensures Ran(old(View()), View(), E.Deposit(old(View()), amount, rent), r)
      ensures R.Guaranteed(old(View()), R.DepositStep(amount, rent), View())
      ensures r.Ok? ==> E.Deposited(old(View()), amount, View())
      ensures r.Ok? && old(pool.poolTotal + E.Minted(View(), amount)) < U64_LIMIT
              && old(pool.stakeTotal) + amount < U64_LIMIT ==>
                PriceHolds(old(pool.stakeTotal), old(pool.poolTotal), pool.stakeTotal, pool.poolTotal)
    {
      R.StepGuarantees(View(), R.DepositStep(amount, rent));
      hide E.Deposited, E.Worth;
      E.ExchangeKeepsPrice(View(), amount, rent);
      E.DepositExactly(View(), amount, rent);
      if amount == 0 {
        return Err(InvalidArgument);
      }
      if WrapAdd64(bank.reserve, amount) < MinReserve(rent) {
        return Err(FirstDepositIsTooSmall);
      }
      var minted := PoolDepositAmount(pool, amount);
      if minted.None? {
        return Err(CalculationFailure);
      }
      var fee := FeeAmount(pool, minted.value);
      if fee.None? || minted.value < fee.value {
        return Err(CalculationFailure);
      }
      // the user's lamports go to the reserve
      if amount > bank.outside || bank.reserve + amount >= U64_LIMIT {
        return Err(TransferFailed);
      }
      // tokens are minted to the user, and the fee to the owner
      var userAmount := minted.value - fee.value;
      if bank.circulating + bank.escrow + userAmount + fee.value >= U64_LIMIT {
        return Err(TokenFailure);
      }
      bank := bank.(reserve := bank.reserve + amount, outside := bank.outside - amount);
      bank := bank.(circulating := bank.circulating + userAmount);
      bank := bank.(circulating := bank.circulating + fee.value);
      pool := pool.(poolTotal := WrapAdd64(pool.poolTotal, minted.value));
      pool := pool.(stakeTotal := WrapAdd64(pool.stakeTotal, amount));
      return Ok(());
    }

    method ProcessWithdraw(tokens: u64, rent: Rent) returns (r: Result<(), Error>)
      modifies this
      ensures Ran(old(View()), View(), E.Withdraw(old(View()), tokens, rent), r)
      ensures R.Guaranteed(old(View()), R.WithdrawStep(tokens, rent), View())
      ensures r.Ok? ==> E.Withdrawn(old(View()), tokens, View())
      ensures r.Ok? && old(SupplyOk(View())) ==>
                PriceHolds(old(pool.stakeTotal), old(pool.poolTotal), pool.stakeTotal, pool.poolTotal)
    {
      R.StepGuarantees(View(), R.WithdrawStep(tokens, rent));
      hide E.Withdrawn;
      E.ExchangeKeepsPrice(View(), tokens, rent);
      E.WithdrawExactly(View(), tokens, rent);
      if tokens == 0 {
        return Err(InvalidArgument);
      }
      var lamports := LamportsAmount(pool, tokens);
      if lamports.None? {
        return Err(CalculationFailure);
      }
      var left := bank.reserve - lamports.value;
      if lamports.value > bank.reserve || left < MIN_RESERVE_BALANCE || left < rent.empty {
        return Err(InsufficientFunds);
      }
      if tokens > bank.circulating {
        return Err(TokenFailure);
      }
      if bank.outside + lamports.value >= U64_LIMIT {
        return Err(TransferFailed);
      }
      bank := bank.(circulating := bank.circulating - tokens);
      bank := bank.(reserve := left, outside := bank.outside + lamports.value);
      pool := pool.(poolTotal := WrapSub64(pool.poolTotal, tokens));
      pool := pool.(stakeTotal := WrapSub64(pool.stakeTotal, lamports.value));
      return Ok(());
    }

    method ProcessCredit(amount: u64, target: Pubkey, authority: Pubkey, systemTarget: bool)
      returns (r: Result<(), Error>)
      modifies this
      ensures Ran(old(View()), View(), C.Credit(old(View()), amount, target, authority, systemTarget), r)
      ensures R.Guaranteed(old(View()), R.CreditStep(amount, target, authority, systemTarget), View())
      ensures r.Ok? && old(Queued(View())) ==>
                && C.Escrowed(old(View()), amount, View())
                && exists k :: C.GrowsAt(old(credits), credits, k, target, authority, amount)
    {
      R.StepGuarantees(View(), R.CreditStep(amount, target, authority, systemTarget));
      hide C.Escrowed, C.GrowsAt, QueueOk;
      ghost var s := View();
      if Queued(s) && C.Credit(s, amount, target, authority, systemTarget).Ok? {
        ghost var k := C.CreditKeeps(s, amount, target, authority, systemTarget);
      }
      if amount == 0 {
        return Err(InvalidArgument);
      }
      if !systemTarget {
        return Err(IncorrectProgramId);
      }
      var queue := credits;
      var found := FindCredit(queue, target);
      if found.Some? {
        var k := found.value;
        if authority != queue[k].cancelAuthority {
          return Err(InvalidArgument);
        }
        queue := queue[k := queue[k].(tokenAmount := WrapAdd64(queue[k].tokenAmount, amount))];
      } else {
        if |queue| >= MAX_CREDIT_RECORDS {
          return Err(CreditListOverflow);
        }
        queue := queue + [CreditRecord(target, authority, amount)];
      }
      if amount > bank.circulating || bank.escrow + amount >= U64_LIMIT {
        return Err(TokenFailure);
      }
      bank := bank.(circulating := bank.circulating - amount, escrow := bank.escrow + amount);
      credits := queue;
      return Ok(());
    }

    method ProcessUncredit(amount: u64, target: Pubkey, authority: Pubkey, signed: bool) returns (r: Result<(), Error>)
      modifies this
      ensures Ran(old(View()), View(), C.Uncredit(old(View()), amount, target, authority, signed), r)
      ensures R.Guaranteed(old(View()), R.UncreditStep(amount, target, authority, signed), View())
      ensures old(Queued(View()) && Supply(View()) < U64_LIMIT) ==> r != Err(TokenFailure)
      ensures r.Ok? && old(Queued(View())) ==>
                && C.Escrowed(old(View()), 0 - (amount as int), View())
                && CreditSum(credits) + amount == CreditSum(old(credits))
    {
      R.StepGuarantees(View(), R.UncreditStep(amount, target, authority, signed));
      hide C.Escrowed, CreditSum, QueueOk;
      if Queued(View()) {
        C.UncreditKeeps(View(), amount, target, authority, signed);
      }
      var queue := credits;
      var found := FindCredit(queue, target);
      if found.None? {
        return Err(UnknownCreditor);
      }
      var k := found.value;
      if authority != queue[k].cancelAuthority {
        return Err(InvalidArgument);
      }
      if !signed {
        return Err(MissingRequiredSignature);
      }
      if amount > queue[k].tokenAmount {
        return Err(InsufficientFunds);
      }
      if amount == queue[k].tokenAmount {
        queue := C.Retain(queue, target);
      } else {
        queue := queue[k := queue[k].(tokenAmount := queue[k].tokenAmount - amount)];
      }
      if amount > bank.escrow || bank.circulating + amount >= U64_LIMIT {
        return Err(TokenFailure);
      }
      bank := bank.(circulating := bank.circulating + amount, escrow := bank.escrow - amount);
      credits := queue;
      return Ok(());
    }

    method ProcessPayCreditors(users: seq<C.UserInfo>, rent: Rent) returns (r: Result<(), Error>)
      modifies this
      ensures Ran(old(View()), View(), C.PayCreditors(old(View()), users, rent), r)
      ensures R.Guaranteed(old(View()), R.PayCreditorsStep(users, rent), View())
      ensures old(Queued(View())) ==> r != Err(TokenFailure)
      ensures old(Queued(View()) && SupplyOk(View())) ==> r != Err(CalculationFailure)
      ensures r.Ok? ==> exists m: nat :: C.Disciplined(users, old(credits), m, credits)
                                    && m <= |users| && m <= |old(View()).credits|
                                    && old(bank.reserve) - bank.reserve == C.Payments(old(View()), users, m)
                                    && old(bank.escrow) - bank.escrow
                                       == CreditSum(C.PaidOf(users, old(View()).credits, m))
    {
      R.StepGuarantees(View(), R.PayCreditorsStep(users, rent));
      hide C.Disciplined;
      ghost var s := View();
      if Queued(s) {
        C.PayNeverLacksTokens(s, users, rent);
      }
      if C.PayCreditors(s, users, rent).Ok? {
        ghost var m := C.QueueDiscipline(s, users, rent);
      }
      if pool.lastUpdateEpoch < bank.epoch {
        return Err(StakeListAndPoolOutOfDate);
      }
      var available := SaturatingSub64(bank.reserve, MinReserve(rent));
      var start := C.PayWork(pool.poolTotal, bank.reserve, bank.escrow, bank.outside, 0, [], []);
      var done := PayQueue(pool, start, users, credits, available);
      if done.Err? {
        return Err(done.error);
      }
      var w := done.value;
      // creditors not reached, then those skipped, return to the list
      credits := w.kept + w.invalid;
      bank := bank.(reserve := w.reserve, escrow := w.escrow, outside := w.outside);
      pool := pool.(poolTotal := w.poolTotal, stakeTotal := WrapSub64(pool.stakeTotal, w.total));
      return Ok(());
    }

    method ProcessDelegateReserve(batch: seq<DelegateReserveInstruction>, keys: seq<Address>, rent: Rent)
      returns (r: Result<(), Error>)
      modifies this
      ensures Ran(old(View()), View(), S.DelegateReserve(old(View()), batch, keys, rent), r)
      ensures R.Guaranteed(old(View()), R.DelegateStep(batch, keys, rent), View())
      ensures r.Ok? ==>
                && (forall a :: SC.Funded(old(bank.accounts), bank.accounts, batch, keys, rent, a))
                && bank.reserve + SC.SentInAll(batch) == old(bank.reserve)
    {
      hide S.DelegateOne, MinReserve;
      hide SC.Funded;
      R.StepGuarantees(View(), R.DelegateStep(batch, keys, rent));
      if S.DelegateReserve(View(), batch, keys, rent).Ok? {
        SC.DelegateReserveExactly(View(), batch, keys, rent);
      }
      var available := SaturatingSub64(bank.reserve, MinReserve(rent));
      var w := S.Work(validators, bank.accounts, bank.reserve, bank.outside, 0, false);
      ghost var spec := S.DelegateLoop(w, batch, keys, available, rent);
      for i := 0 to |batch|
        modifies {}
        invariant 2 * i <= |keys|
        invariant spec == S.DelegateLoop(w, batch[i..], keys[2 * i..], available, rent)
      {
        if |keys| < 2 * i + 2 {
          return Err(NotEnoughAccountKeys);
        }
        assert batch[i..][1..] == batch[i + 1..] && keys[2 * i..][2..] == keys[2 * (i + 1)..];
        var done := S.DelegateOne(w, batch[i], keys[2 * i], keys[2 * i + 1], available, rent);
        if done.Err? {
          return Err(done.error);
        }
        w := done.value;
      }
      if w.changed {
        validators := w.list;
      }
      bank := bank.(accounts := w.accounts, reserve := w.reserve, outside := w.outside);
      return Ok(());
    }

    method ProcessMergeStakes(batch: seq<MergeStakesInstruction>, keys: seq<Address>) returns (r: Result<(), Error>)
      modifies this
      ensures Ran(old(View()), View(), S.MergeStakes(old(View()), batch, keys), r)
      ensures R.Guaranteed(old(View()), R.MergeStep(batch, keys), View())
    {
      hide S.MergeOne;
      R.StepGuarantees(View(), R.MergeStep(batch, keys));
      var w := S.Work(validators, bank.accounts, bank.reserve, bank.outside, 0, false);
      ghost var spec := S.MergeLoop(w, batch, keys);
      for i := 0 to |batch|
        modifies {}
        invariant 2 * i <= |keys|
        invariant spec == S.MergeLoop(w, batch[i..], keys[2 * i..])
      {
        if |keys| < 2 * i + 2 {
          return Err(NotEnoughAccountKeys);
        }
        assert batch[i..][1..] == batch[i + 1..] && keys[2 * i..][2..] == keys[2 * (i + 1)..];
        var done := S.MergeOne(w, batch[i], keys[2 * i], keys[2 * i + 1]);
        if done.Err? {
          return Err(done.error);
        }
        w := done.value;
      }
      if w.changed {
        validators := w.list;
      }
      bank := bank.(accounts := w.accounts, reserve := w.reserve, outside := w.outside);
      return Ok(());
    }

    method ProcessUnstake(batch: seq<UnstakeInstruction>, keys: seq<Address>, rent: Rent) returns (r: Result<(), Error>)
      modifies this
      ensures Ran(old(View()), View(), S.Unstake(old(View()), batch, keys, rent), r)
      ensures R.Guaranteed(old(View()), R.UnstakeStep(batch, keys, rent), View())
      ensures r.Ok? && SC.Apart(batch) ==> SC.AllSplitOff(old(bank.accounts), bank.accounts, batch, rent)
      ensures r.Ok? ==> bank.outside + SC.RentPaid(batch, rent) == old(bank.outside)
    {
      hide S.UnstakeOne;
      hide SC.AllSplitOff, SC.Apart;
      R.StepGuarantees(View(), R.UnstakeStep(batch, keys, rent));
      if S.Unstake(View(), batch, keys, rent).Ok? {
        SC.UnstakeExactly(View(), batch, keys, rent);
      }
      var w := S.Work(validators, bank.accounts, bank.reserve, bank.outside, 0, false);
      var next := 0;
      ghost var spec := S.UnstakeLoop(w, batch, keys, rent);
      for i := 0 to |batch|
        modifies {}
        invariant 0 <= next <= |keys|
        invariant spec == S.UnstakeLoop(w, batch[i..], keys[next..], rent)
      {
        var used := S.KeysUsed(batch[i]);
        assert batch[i..][1..] == batch[i + 1..];
        assert next + used <= |keys| ==> keys[next..][used..] == keys[next + used..];
        var done := S.UnstakeOne(w, batch[i], keys[next..], rent);
        if done.Err? {
          return Err(done.error);
        }
        w, next := done.value, next + used;
      }
      if w.changed {
        validators := w.list;
      }
      bank := bank.(accounts := w.accounts, reserve := w.reserve, outside := w.outside);
      return Ok(());
    }

    method ProcessUpdateListBalance(keys: seq<Address>) returns (r: Result<(), Error>)
      modifies this
      ensures Ran(old(View()), View(), U.UpdateListBalance(old(View()), keys), r)
      ensures R.Guaranteed(old(View()), R.UpdateListStep(keys), View())
      ensures r.Ok? && old(StakesOk(View())) ==>
                && UC.ListSwept(old(validators), old(bank.accounts), bank.accounts, keys)
                && UC.ListTrimmed(old(validators), validators, old(bank.accounts), bank.accounts, keys)
                && Assets(View()) == old(Assets(View()))
      ensures r.Ok? && old(StakesOk(View())) ==>
                forall j :: 0 <= j < |validators| && Wallet(validators[j].validator) in keys ==>
                  UP.Exact(validators[j], bank.accounts, bank.epoch)
    {
      R.StepGuarantees(View(), R.UpdateListStep(keys));
      hide UC.ListSwept, UC.ListTrimmed, UP.Exact, Assets, StakesOk;
      ghost var s := View();
      if StakesOk(s) && U.UpdateListBalance(s, keys).Ok? {
        UP.UpdateListBalanceKeeps(s, keys);
      }
      var done := RefreshAll(U.ListWork(validators, bank.accounts, bank.reserve), keys, bank.epoch);
      if done.Err? {
        return Err(done.error);
      }
      var w := done.value;
      validators := w.list;
      bank := bank.(accounts := w.accounts, reserve := w.reserve);
      return Ok(());
    }

    method ProcessUpdatePoolBalance() returns (r: Result<(), Error>)
      modifies this
      ensures Ran(old(View()), View(), U.UpdatePoolBalance(old(View())), r)
      ensures R.Guaranteed(old(View()), R.UpdatePoolStep, View())
      ensures old(StakesOk(View()) && ClockOk(View())) && r.Ok? ==> Backed(View())
    {
      R.StepGuarantees(View(), R.UpdatePoolStep);
      ghost var s := View();
      if StakesOk(s) && ClockOk(s) {
        UP.UpdatePoolBalanceKeeps(s);
      }
      var total: u64 := bank.reserve;
      for i := 0 to |validators|
        modifies {}
        invariant U.TotalLoop(validators, 0, bank.reserve, bank.epoch) == U.TotalLoop(validators, i, total, bank.epoch)
      {
        if validators[i].lastUpdateEpoch < bank.epoch {
          return Err(StakeListOutOfDate);
        }
        total := WrapAdd64(total, validators[i].balance);
      }
      pool := pool.(stakeTotal := total, lastUpdateEpoch := bank.epoch);
      return Ok(());
    }

    method ProcessAddValidator(v: Pubkey) returns (r: Result<(), Error>)
      modifies this`validators
      ensures Ran(old(View()), View(), U.AddValidator(old(View()), v), r)
      ensures R.Guaranteed(old(View()), R.AddValidatorStep(v), View())
      ensures r.Ok? ==>
                && |validators| == |old(validators)| + 1 && old(validators) < validators
                && validators[|old(validators)|] == ValidatorStakeInfo(v, 0, bank.epoch, 0)
    {
      R.StepGuarantees(View(), R.AddValidatorStep(v));
      if pool.lastUpdateEpoch < bank.epoch {
        return Err(StakeListAndPoolOutOfDate);
      }
      if |validators| >= MAX_VALIDATORS {
        return Err(ValidatorListOverflow);
      }
      if Find(validators, v).Some? {
        return Err(ValidatorAlreadyAdded);
      }
      validators := validators + [ValidatorStakeInfo(v, 0, bank.epoch, 0)];
      return Ok(());
    }

    method ProcessRemoveValidator(v: Pubkey) returns (r: Result<(), Error>)
      modifies this`validators
      ensures Ran(old(View()), View(), U.RemoveValidator(old(View()), v), r)
      ensures R.Guaranteed(old(View()), R.RemoveValidatorStep(v), View())
      ensures r.Ok? && old(StakesOk(View())) ==>
                && (exists k :: UP.RemovedAt(old(validators), v, k, validators))
                && Find(validators, v).None?
      ensures r.Ok? && old(StakesOk(View())) ==> forall i: nat :: At(bank.accounts, StakeKey(v, i)).System?
    {
      R.StepGuarantees(View(), R.RemoveValidatorStep(v));
      ghost var s := View();
      if StakesOk(s) && U.RemoveValidator(s, v).Ok? {
        UP.RemoveValidatorKeeps(s, v);
        ghost var k := UP.RemoveValidatorExactly(s, v);
      }
      if pool.lastUpdateEpoch < bank.epoch {
        return Err(StakeListAndPoolOutOfDate);
      }
      var found := Find(validators, v);
      if found.None? {
        return Err(ValidatorNotFound);
      }
      if validators[found.value].stakeCount > 0 {
        return Err(ValidatorHasStakes);
      }
      validators := validators[..found.value] + validators[found.value + 1..];
      return Ok(());
    }

    method ProcessSetOwner(owner: Pubkey, feeAccount: Pubkey) returns (r: Result<(), Error>)
      modifies this`pool
      ensures Ran(old(View()), View(), R.Next(old(View()), R.SetOwnerStep(owner, feeAccount)), r)
      ensures R.Guaranteed(old(View()), R.SetOwnerStep(owner, feeAccount), View())
      ensures r.Ok? && pool.owner == owner && pool.ownerFeeAccount == feeAccount
      ensures pool.(owner := old(pool.owner), ownerFeeAccount := old(pool.ownerFeeAccount)) == old(pool)
    {
      R.StepGuarantees(View(), R.SetOwnerStep(owner, feeAccount));
      pool := pool.(owner := owner);
      pool := pool.(ownerFeeAccount := feeAccount);
      return Ok(());
    }

    /** The instructions that move tokens. */
    method ProcessTokens(i: I.PoolInstruction, c: Context) returns (r: Result<(), Error>)
      requires i.Deposit? || i.Withdraw? || i.Credit? || i.Uncredit? || i.PayCreditors?
      modifies this
      ensures Ran(old(View()), View(), R.Next(old(View()), StepOf(i, c).value), r)
    {
      hide E.Deposit, E.Withdraw, C.Credit, C.Uncredit, C.PayCreditors, R.Guaranteed, PriceHolds, CreditSum, E.Minted;
      match i {
        case Deposit(amount) => r := ProcessDeposit(amount, c.rent);
        case Withdraw(amount) => r := ProcessWithdraw(amount, c.rent);
        case Credit(amount) => r := ProcessCredit(amount, c.target, c.authority, c.systemTarget);
        case Uncredit(amount) => r := ProcessUncredit(amount, c.target, c.authority, c.signed);
        case PayCreditors => r := ProcessPayCreditors(c.users, c.rent);
      }
    }

    /** The instructions that move stake, and those that maintain the records. */
    method ProcessStakes(i: I.PoolInstruction, c: Context) returns (r: Result<(), Error>)
      requires i.AddValidator? || i.RemoveValidator? || i.UpdateListBalance? || i.UpdatePoolBalance? || i.SetOwner?
            || i.DelegateReserve? || i.MergeStakes? || i.Unstake?
      modifies this
      ensures Ran(old(View()), View(), R.Next(old(View()), StepOf(i, c).value), r)
    {
      hide S.DelegateReserve, S.MergeStakes, S.Unstake, U.UpdateListBalance, U.UpdatePoolBalance, U.AddValidator;
      hide U.RemoveValidator, R.Guaranteed, UP.Exact;
      match i {
        case AddValidator => r := ProcessAddValidator(c.vote);
        case RemoveValidator => r := ProcessRemoveValidator(c.vote);
        case UpdateListBalance => r := ProcessUpdateListBalance(c.keys);
        case UpdatePoolBalance => r := ProcessUpdatePoolBalance();
        case SetOwner => r := ProcessSetOwner(c.owner, c.feeAccount);
        case DelegateReserve(batch) => r := ProcessDelegateReserve(batch, c.keys, c.rent);
        case MergeStakes(batch) => r := ProcessMergeStakes(batch, c.keys);
        case Unstake(batch) => r := ProcessUnstake(batch, c.keys, c.rent);
      }
    }

    /** The entry point: whatever bytes and accounts it is given, an initialized pool in
        order stays in order unless a deposit wraps, a payment overdraws or a count wraps. */
    method Process(data: seq<byte>, c: Context) returns (r: Result<(), Error>)
      modifies this
      ensures Ran(old(View()), View(), Outcome(old(View()), data, c), r)
      ensures old(Valid()) && old(pool.version) > 0 && SafeInput(old(View()), data, c) ==>
                Valid() && pool.version > 0 && Capital(View()) == old(Capital(View()))
      ensures old(pool.version) > 0 && old(bank.reserve) >= MIN_RESERVE_BALANCE ==> bank.reserve >= MIN_RESERVE_BALANCE
    {
      hide R.Next, R.Initialize, I.Deserialize, Inv, Capital, SafeInput, R.Blank;
      if pool.version > 0 {
        InputKeeps(View(), data, c);
      }
      var decoded := I.Deserialize(data);
      if decoded.Err? {
        return Err(decoded.error);
      }
      var i := decoded.value;
      if i.Initialize? {
        r := ProcessInitialize(i.fee);
      } else if i.SetStakingAuthority? {
        r := Err(ProgramPanicked);
      } else if i.Deposit? || i.Withdraw? || i.Credit? || i.Uncredit? || i.PayCreditors? {
        r := ProcessTokens(i, c);
      } else {
        r := ProcessStakes(i, c);
      }
    }
  }
}
