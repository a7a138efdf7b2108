/** Whole runs: any interleaving of the program's handlers with what the rest of
    the chain may do. A transaction that fails changes nothing. */
module Runs {
  import opened Machine
  import opened Data
  import opened Ledger
  import opened Invariants
  import opened Exchange
  import Trading
  import opened Credits
  import opened Staking
  import opened StakingProofs
  import opened Upkeep
  import opened UpkeepProofs

  datatype Step =
    | DepositStep(amount: u64, rent: Rent)
    | WithdrawStep(tokens: u64, rent: Rent)
    | CreditStep(amount: u64, target: Pubkey, authority: Pubkey, systemTarget: bool)
    | UncreditStep(amount: u64, target: Pubkey, authority: Pubkey, signed: bool)
    | PayCreditorsStep(users: seq<UserInfo>, rent: Rent)
    | DelegateStep(delegations: seq<DelegateReserveInstruction>, keys: seq<Address>, rent: Rent)
    | MergeStep(merges: seq<MergeStakesInstruction>, keys: seq<Address>)
    | UnstakeStep(unstakes: seq<UnstakeInstruction>, keys: seq<Address>, rent: Rent)
    | UpdateListStep(keys: seq<Address>)
    | UpdatePoolStep
    | AddValidatorStep(validator: Pubkey)
    | RemoveValidatorStep(validator: Pubkey)
    | SetOwnerStep(owner: Pubkey, feeAccount: Pubkey)
    // The rest of the chain: time passes, lamports are sent to the reserve or to a
    // stake address, stakes earn rewards and change state, holders burn tokens or
    // send them to the credit reserve.
    | TickStep(epoch: u64)
    | DonateStep(lamports: u64)
    | DonateToStakeStep(account: StakeKey, lamports: u64)
    | RewardStep(account: StakeKey, lamports: u64)
    | StakeStateStep(account: StakeKey, state: StakeState)
    | BurnStep(burnt: u64)
    | GiftStep(gift: u64)

  function Next(s: State, step: Step): Result<State, Error> {
    match step
    case DepositStep(amount, rent) => Deposit(s, amount, rent)
    case WithdrawStep(tokens, rent) => Withdraw(s, tokens, rent)
    case CreditStep(amount, target, authority, systemTarget) => Credit(s, amount, target, authority, systemTarget)
    case UncreditStep(amount, target, authority, signed) => Uncredit(s, amount, target, authority, signed)
    case PayCreditorsStep(users, rent) => PayCreditors(s, users, rent)
    case DelegateStep(batch, keys, rent) => DelegateReserve(s, batch, keys, rent)
    case MergeStep(batch, keys) => MergeStakes(s, batch, keys)
    case UnstakeStep(batch, keys, rent) => Unstake(s, batch, keys, rent)
    case UpdateListStep(keys) => UpdateListBalance(s, keys)
    case UpdatePoolStep => UpdatePoolBalance(s)
    case AddValidatorStep(v) => AddValidator(s, v)
    case RemoveValidatorStep(v) => RemoveValidator(s, v)
    case SetOwnerStep(owner, feeAccount) => Ok(s.(pool := s.pool.(owner := owner, ownerFeeAccount := feeAccount)))
    case _ => Environment(s, step)
  }

  function Environment(s: State, step: Step): Result<State, Error> {
    var bank := s.bank;
    match step
    case TickStep(epoch) =>
      if epoch < bank.epoch then Err(InvalidArgument) else Ok(s.(bank := bank.(epoch := epoch)))
    case DonateStep(x) =>
      if x > bank.outside || bank.reserve + x >= U64_LIMIT then Err(TransferFailed)
      else Ok(s.(bank := bank.(reserve := bank.reserve + x, outside := bank.outside - x)))
    case DonateToStakeStep(a, x) =>
      var acc := At(bank.accounts, a);
      if x > bank.outside || acc.lamports + x >= U64_LIMIT then Err(TransferFailed)
      else Ok(s.(bank := bank.(
        accounts := bank.accounts[a := acc.(lamports := acc.lamports + x)],
        outside := if a.index < CountOf(s.validators, a.validator) then bank.outside - x else bank.outside)))
    case RewardStep(a, x) =>
      var acc := At(bank.accounts, a);
      if !acc.Stake? || acc.lamports + x >= U64_LIMIT || Capital(s) + x >= U64_LIMIT then Err(StakeProgramFailure)
      else Ok(s.(bank := bank.(accounts := bank.accounts[a := acc.(lamports := acc.lamports + x)])))
    case StakeStateStep(a, state) =>
      var acc := At(bank.accounts, a);
      if !acc.Stake? then Err(StakeProgramFailure)
      else Ok(s.(bank := bank.(accounts := bank.accounts[a := acc.(state := state)])))
    case BurnStep(x) =>
      if x > bank.circulating then Err(TokenFailure)
      else Ok(s.(bank := bank.(circulating := bank.circulating - x)))
    case GiftStep(x) =>
      if x > bank.circulating || bank.escrow + x >= U64_LIMIT then Err(TokenFailure)
      else Ok(s.(bank := bank.(circulating := bank.circulating - x, escrow := bank.escrow + x)))
    case _ => Err(InvalidArgument)
  }

  function After(s: State, step: Step): State {
    match Next(s, step) case Ok(s') => s' case Err(_) => s
  }

  function Exec(s: State, steps: seq<Step>): State
    decreases |steps|
  {
    if steps == [] then s else After(Exec(s, steps[..|steps| - 1]), steps[|steps| - 1])
  }

  /** The chain before the pool exists: a zeroed pool account, and no stake account
      at any of the addresses only the program can sign for. */
  ghost predicate Blank(s: State) {
    && s.pool.version == 0 && s.pool.stakeTotal == 0 && s.pool.poolTotal == 0
    && (forall a :: a in s.bank.accounts ==> s.bank.accounts[a].System?)
    && s.bank.reserve + s.bank.outside < U64_LIMIT
  }

  function Initialize(s: State, fee: Fee): Result<State, Error> {
    if s.pool.version > 0 then Err(AlreadyInUse)
    else if fee.numerator > fee.denominator then Err(FeeTooHigh)
    else if s.bank.circulating + s.bank.escrow > 0 then Err(MintHasInitialSupply)
    else Ok(s.(pool := s.pool.(version := 1, lastUpdateEpoch := s.bank.epoch, fee := fee),
               validators := [], credits := []))
  }

  /** A pool is initialized exactly with a fee of at most one, while it is blank and its mint
      has no supply; it then has that fee, the present epoch and empty lists, and nothing
      else changes. */
  lemma {:induction false} InitializeExactly(s: State, fee: Fee)
    ensures Initialize(s, fee).Ok? <==> s.pool.version == 0 && fee.numerator <= fee.denominator && Supply(s) == 0
    ensures Initialize(s, fee).Ok? ==>
              var s' := Initialize(s, fee).value;
              && s'.pool == s.pool.(version := s'.pool.version, lastUpdateEpoch := s.bank.epoch, fee := fee)
              && s'.pool.version > 0 && s'.validators == [] && s'.credits == [] && s'.bank == s.bank
  {
  }

  /** A state right after the pool was initialized. */
  ghost predicate Init(s: State) {
    exists s0, fee :: Blank(s0) && Initialize(s0, fee) == Ok(s)
  }

  // ---- the cases in which a handler's arithmetic can wrap

  /** The deposit does not overflow the recorded token total. */
  ghost predicate DepositSafe(s: State, step: Step) {
    step.DepositStep? && Next(s, step).Ok? ==> s.pool.poolTotal + Minted(s, step.amount) < U64_LIMIT
  }

  /** The batch hands out no more than the recorded stake. */
  ghost predicate PaymentSafe(s: State, step: Step) {
    step.PayCreditorsStep? && Next(s, step).Ok? ==> BatchTotal(s, step.users, step.rent) <= s.pool.stakeTotal
  }

  /** No stake count wraps. */
  ghost predicate IndexSafe(s: State, step: Step) {
    && (step.DelegateStep? && Next(s, step).Ok? ==> DelegateFits(step.delegations))
    && (step.UnstakeStep? && Next(s, step).Ok? ==> UnstakeFits(step.unstakes))
  }

  ghost predicate Safe(s: State, step: Step) {
    DepositSafe(s, step) && PaymentSafe(s, step) && IndexSafe(s, step)
  }

  ghost predicate DepositSafeRun(s: State, steps: seq<Step>)
    decreases |steps|
  {
    steps != [] ==>
      var n := |steps| - 1;
      DepositSafeRun(s, steps[..n]) && DepositSafe(Exec(s, steps[..n]), steps[n])
  }

  ghost predicate IndexSafeRun(s: State, steps: seq<Step>)
    decreases |steps|
  {
    steps != [] ==>
      var n := |steps| - 1;
      IndexSafeRun(s, steps[..n]) && IndexSafe(Exec(s, steps[..n]), steps[n])
  }

  /** Payments are safe from step `from` on. */
  ghost predicate PaymentSafeFrom(s: State, steps: seq<Step>, from: nat)
    decreases |steps|
  {
    from < |steps| ==>
      var n := |steps| - 1;
      PaymentSafeFrom(s, steps[..n], from) && PaymentSafe(Exec(s, steps[..n]), steps[n])
  }

  ghost predicate SafeRun(s: State, steps: seq<Step>) {
    DepositSafeRun(s, steps) && IndexSafeRun(s, steps) && PaymentSafeFrom(s, steps, 0)
  }

  /** Lamports a step adds to the chain: only staking rewards do. */
  function Minting(s: State, step: Step): nat {
    if step.RewardStep? && Next(s, step).Ok? then step.lamports else 0
  }

  // ---- one step, part by part

  lemma {:induction false} InitOk(s: State)
    requires Init(s)
    ensures Inv(s) && Supply(s) == s.pool.poolTotal && s.pool.lastUpdateEpoch == s.bank.epoch && s.pool.version == 1
    ensures s.validators == []
  {
  }

  /** The credit queue, under no condition. */
  lemma {:induction false} QueueStep(s: State, step: Step)
    requires Queued(s) && Next(s, step).Ok?
    ensures Queued(Next(s, step).value)
  {
    hide PayLoop, DelegateLoop, MergeLoop, UnstakeLoop, RefreshLoop, QueueOk, Enqueued, Reduced;
    match step
    case CreditStep(amount, target, authority, _) =>
      var _ := EnqueuedOk(s.credits, s.bank.escrow, amount, target, authority);
    case UncreditStep(amount, target, _, _) =>
      ReducedOk(s.credits, s.bank.escrow, FindCredit(s.credits, target).value, amount);
    case PayCreditorsStep(users, rent) =>
      PayCreditorsAnywhere(s, users, rent);
    case GiftStep(gift) =>
      MoreEscrow(s.credits, s.bank.escrow, s.bank.escrow + gift);
    case _ =>
  }

  /** A record after a step was there before with the same epoch, or the step
      refreshed or added it now. */
  ghost predicate RecordCarried(s: State, step: Step, r: ValidatorStakeInfo) {
    || (exists k :: 0 <= k < |s.validators| && s.validators[k].validator == r.validator
                    && s.validators[k].lastUpdateEpoch == r.lastUpdateEpoch)
    || (r.lastUpdateEpoch == s.bank.epoch
        && (step == AddValidatorStep(r.validator) || (step.UpdateListStep? && Wallet(r.validator) in step.keys)))
  }

  lemma {:induction false} BatchKeepsEpochs(s: State, step: Step)
    requires Next(s, step).Ok? && (step.DelegateStep? || step.MergeStep? || step.UnstakeStep?)
    ensures SameValidators(s.validators, Next(s, step).value.validators)
  {
    match step
    case DelegateStep(batch, keys, rent) => DelegateLoopNames(Start(s), batch, keys, Spendable(s, rent), rent);
    case MergeStep(batch, keys) => MergeLoopNames(Start(s), batch, keys);
    case UnstakeStep(batch, keys, rent) => UnstakeLoopNames(Start(s), batch, keys, rent);
  }

  lemma {:induction false} RecordStep(s: State, step: Step, k: nat)
    requires Next(s, step).Ok? && k < |Next(s, step).value.validators|
    ensures RecordCarried(s, step, Next(s, step).value.validators[k])
  {
    hide DelegateReserve, MergeStakes, Unstake, RefreshLoop, PayLoop;
    var r := Next(s, step).value.validators[k];
    match step
    case DelegateStep(_, _, _) =>
      BatchKeepsEpochs(s, step);
      assert s.validators[k].validator == r.validator;
    case MergeStep(_, _) =>
      BatchKeepsEpochs(s, step);
      assert s.validators[k].validator == r.validator;
    case UnstakeStep(_, _, _) =>
      BatchKeepsEpochs(s, step);
      assert s.validators[k].validator == r.validator;
    case UpdateListStep(keys) =>
      RefreshLoopAnywhere(ListWork(s.validators, s.bank.accounts, s.bank.reserve), keys, s.bank.epoch);
      assert s.validators[k].validator == r.validator;
    case AddValidatorStep(v) =>
      assert k < |s.validators| ==> s.validators[k] == r;
    case RemoveValidatorStep(v) =>
      var i := Find(s.validators, v).value;
      assert s.validators[if k < i then k else k + 1] == r;
    case _ =>
      assert s.validators[k] == r;
  }

  /** Only a pool refresh moves the pool's epoch, to the present one. */
  lemma {:induction false} PoolEpochStep(s: State, step: Step)
    requires Next(s, step).Ok?
    ensures var s' := Next(s, step).value;
            && s'.pool.lastUpdateEpoch == (if step.UpdatePoolStep? then s.bank.epoch else s.pool.lastUpdateEpoch)
            && s'.pool.fee == s.pool.fee && s'.pool.version == s.pool.version
            && s.bank.epoch <= s'.bank.epoch
  {
    hide PayLoop, DelegateLoop, MergeLoop, UnstakeLoop, RefreshLoop, TotalLoop;
  }

  /** The clock, under no condition. */
  lemma {:induction false} ClockStep(s: State, step: Step)
    requires ClockOk(s) && Next(s, step).Ok?
    ensures ClockOk(Next(s, step).value)
  {
    hide Next;
    var s' := Next(s, step).value;
    PoolEpochStep(s, step);
    forall k | 0 <= k < |s'.validators| ensures s'.validators[k].lastUpdateEpoch <= s'.bank.epoch {
      RecordStep(s, step, k);
    }
  }

  /** The reserve floor, under no condition. */
  lemma {:induction false} FloorStep(s: State, step: Step)
    requires Next(s, step).Ok? && (s.bank.reserve >= MIN_RESERVE_BALANCE || step.DepositStep?)
    ensures Next(s, step).value.bank.reserve >= MIN_RESERVE_BALANCE
  {
    hide PayLoop, DelegateLoop, MergeLoop, UnstakeLoop, RefreshLoop;
    match step
    case PayCreditorsStep(users, rent) => PayCreditorsSpends(s, users, rent);
    case DelegateStep(batch, keys, rent) => DelegateReserveSpends(s, batch, keys, rent);
    case MergeStep(batch, keys) => MergeLoopReserve(Start(s), batch, keys);
    case UnstakeStep(batch, keys, rent) => UnstakeLoopReserve(Start(s), batch, keys, rent);
    case UpdateListStep(keys) =>
      RefreshLoopAnywhere(ListWork(s.validators, s.bank.accounts, s.bank.reserve), keys, s.bank.epoch);
    case _ =>
  }

  lemma {:induction false} TouchListed(s: State, a: StakeKey, acc: Account)
    requires Book(s.validators, s.bank.accounts)
    requires a.index < CountOf(s.validators, a.validator)
    requires acc.lamports >= At(s.bank.accounts, a).lamports
    requires acc.Stake? ==> acc.lamports > 0
    ensures var accounts := s.bank.accounts[a := acc];
            && Book(s.validators, accounts)
            && (forall j :: 0 <= j < |s.validators| ==>
                  OfRecord(s.validators[j], accounts) >= OfRecord(s.validators[j], s.bank.accounts))
            && Listed(s.validators, accounts)
               == Listed(s.validators, s.bank.accounts) + acc.lamports - At(s.bank.accounts, a).lamports
  {
    var k := Find(s.validators, a.validator).value;
    TouchAccount(s.validators, s.bank.accounts, k, a.index, acc);
  }

  lemma {:induction false} TouchUnlisted(list: seq<ValidatorStakeInfo>, accounts: Accounts, a: StakeKey, acc: Account,
                                         n: nat)
    requires Distinct(list) && n <= |list| && a.index >= CountOf(list, a.validator)
    ensures ListedTo(list, accounts[a := acc], n) == ListedTo(list, accounts, n)
    ensures forall j :: 0 <= j < n ==> OfRecord(list[j], accounts[a := acc]) == OfRecord(list[j], accounts)
  {
    if n > 0 {
      TouchUnlisted(list, accounts, a, acc, n - 1);
      CountOfListed(list, n - 1);
      LamportsUpdate(accounts, list[n - 1].validator, list[n - 1].stakeCount, a, acc);
    }
  }

  /** What a change of one stake address does to the books: lamports sent, or earned, or a
      new state. */
  lemma {:induction false} TouchKeeps(s: State, step: Step)
    requires StakesOk(s) && Environment(s, step).Ok?
    requires step.DonateToStakeStep? || step.RewardStep? || step.StakeStateStep?
    ensures var s' := Environment(s, step).value;
            && StakesOk(s') && Assets(s') >= Assets(s)
            && Capital(s') == Capital(s) + (if step.RewardStep? then step.lamports else 0)
  {
    var s', a := Environment(s, step).value, step.account;
    if a.index < CountOf(s.validators, a.validator) {
      TouchListed(s, a, At(s'.bank.accounts, a));
    } else {
      TouchUnlisted(s.validators, s.bank.accounts, a, At(s'.bank.accounts, a), |s.validators|);
    }
  }

  lemma {:induction false} EnvironmentKeeps(s: State, step: Step)
    requires StakesOk(s) && Environment(s, step).Ok?
    ensures var s' := Environment(s, step).value;
            && StakesOk(s') && (Inv(s) ==> Inv(s'))
            && Capital(s') == Capital(s) + (if step.RewardStep? then step.lamports else 0)
            && s'.bank.reserve >= s.bank.reserve
  {
    hide StakesOk, QueueOk, Listed;
    var s' := Environment(s, step).value;
    if step.DonateToStakeStep? || step.RewardStep? || step.StakeStateStep? {
      TouchKeeps(s, step);
    } else {
      StakesUntouched(s, s');
      if step.GiftStep? && Queued(s) {
        MoreEscrow(s.credits, s.bank.escrow, s'.bank.escrow);
      }
    }
  }

  /** The stake accounts, as long as no stake count wraps. */
  lemma {:induction false} StakesStep(s: State, step: Step)
    requires StakesOk(s) && IndexSafe(s, step) && Next(s, step).Ok?
    ensures StakesOk(Next(s, step).value)
    ensures Capital(Next(s, step).value) == Capital(s) + Minting(s, step)
  {
    hide PayLoop, DelegateReserve, MergeStakes, Unstake, UpdateListBalance, Environment, StakesOk, Capital, TotalLoop;
    var s' := Next(s, step).value;
    match step
    case PayCreditorsStep(users, rent) =>
      PayCreditorsAnywhere(s, users, rent);
      StakesUntouched(s, s');
    case DelegateStep(batch, keys, rent) => DelegateReserveKeeps(s, batch, keys, rent);
    case MergeStep(batch, keys) => MergeStakesKeeps(s, batch, keys);
    case UnstakeStep(batch, keys, rent) => UnstakeKeeps(s, batch, keys, rent);
    case UpdateListStep(keys) => UpdateListBalanceKeeps(s, keys);
    case AddValidatorStep(v) => AddValidatorKeeps(s, v);
    case RemoveValidatorStep(v) => RemoveValidatorKeeps(s, v);
    case _ =>
      if step.DepositStep? || step.WithdrawStep? || step.CreditStep? || step.UncreditStep? || step.UpdatePoolStep?
         || step.SetOwnerStep? {
        StakesUntouched(s, s');
      } else {
        EnvironmentKeeps(s, step);
      }
  }

  /** The mint never lets the supply overflow. */
  lemma {:induction false} MintStep(s: State, step: Step)
    requires Next(s, step).Ok?
    ensures Supply(Next(s, step).value) <= Supply(s) || Supply(Next(s, step).value) < U64_LIMIT
  {
    hide PayCreditors, DelegateLoop, MergeLoop, UnstakeLoop, RefreshLoop, TotalLoop;
    if step.PayCreditorsStep? {
      PayCreditorsAnywhere(s, step.users, step.rent);
    }
  }

  /** The token supply: within the recorded total as long as no deposit wraps it, and
      equal to it, with no deposit able to wrap it, as long as nobody burns tokens. */
  lemma {:induction false} SupplyStep(s: State, step: Step)
    requires SupplyOk(s) && Next(s, step).Ok?
    ensures DepositSafe(s, step) ==> SupplyOk(Next(s, step).value)
    ensures Supply(s) == s.pool.poolTotal && !step.BurnStep? ==>
              Supply(Next(s, step).value) == Next(s, step).value.pool.poolTotal && DepositSafe(s, step)
  {
    hide PayCreditors, Deposit, Withdraw, DelegateLoop, MergeLoop, UnstakeLoop, RefreshLoop, TotalLoop;
    match step
    case DepositStep(amount, rent) =>
      DepositSupply(s, amount, rent);
      if Supply(s) == s.pool.poolTotal {
        ExactSupplyNeverWraps(s, amount, rent);
      }
    case WithdrawStep(tokens, rent) => WithdrawSupply(s, tokens, rent);
    case PayCreditorsStep(users, rent) => PayCreditorsAnywhere(s, users, rent);
    case _ =>
  }

  lemma {:induction false} TokenStepKeeps(s: State, step: Step)
    requires Inv(s) && Safe(s, step) && Next(s, step).Ok?
    requires step.DepositStep? || step.WithdrawStep? || step.CreditStep? || step.UncreditStep? || step.PayCreditorsStep?
    ensures Inv(Next(s, step).value)
  {
    hide StakesOk, Queued, ClockOk, SupplyOk, Backed, Deposit, Withdraw, Credit, Uncredit, PayCreditors, Environment;
    match step
    case DepositStep(amount, rent) => DepositKeeps(s, amount, rent);
    case WithdrawStep(tokens, rent) => WithdrawKeeps(s, tokens, rent);
    case CreditStep(amount, target, authority, systemTarget) =>
      var _ := CreditKeeps(s, amount, target, authority, systemTarget);
    case UncreditStep(amount, target, authority, signed) => UncreditKeeps(s, amount, target, authority, signed);
    case PayCreditorsStep(users, rent) => PayCreditorsKeeps(s, users, rent);
  }

  /** Every safe step keeps the pool in order. */
  lemma {:induction false} NextKeeps(s: State, step: Step)
    requires Inv(s) && Safe(s, step) && Next(s, step).Ok?
    ensures Inv(Next(s, step).value)
  {
    hide DelegateReserve, MergeStakes, Unstake, UpdateListBalance, UpdatePoolBalance, AddValidator, RemoveValidator;
    hide Environment;
    match step
    case DelegateStep(batch, keys, rent) => DelegateReserveKeeps(s, batch, keys, rent);
    case MergeStep(batch, keys) => MergeStakesKeeps(s, batch, keys);
    case UnstakeStep(batch, keys, rent) => UnstakeKeeps(s, batch, keys, rent);
    case UpdateListStep(keys) => UpdateListBalanceKeeps(s, keys);
    case UpdatePoolStep => UpdatePoolBalanceKeeps(s);
    case AddValidatorStep(v) => AddValidatorKeeps(s, v);
    case RemoveValidatorStep(v) => RemoveValidatorKeeps(s, v);
    case SetOwnerStep(owner, feeAccount) =>
      StakesUntouched(s, s.(pool := s.pool.(owner := owner, ownerFeeAccount := feeAccount)));
    case _ =>
      if step.DepositStep? || step.WithdrawStep? || step.CreditStep? || step.UncreditStep? || step.PayCreditorsStep? {
        TokenStepKeeps(s, step);
      } else {
        EnvironmentKeeps(s, step);
      }
  }

  /** What every step keeps. */
  ghost predicate AlwaysKept(s: State, step: Step, s': State) {
    && (Queued(s) ==> Queued(s'))
    && (Supply(s) < U64_LIMIT ==> Supply(s') < U64_LIMIT)
    && (ClockOk(s) ==> ClockOk(s'))
    && (FeeOk(s) ==> FeeOk(s')) && s'.pool.version == s.pool.version
    && (s.bank.reserve >= MIN_RESERVE_BALANCE || (step.DepositStep? && Next(s, step).Ok?) ==>
          s'.bank.reserve >= MIN_RESERVE_BALANCE)
  }

  /** What a step keeps under the condition it needs. */
  ghost predicate KeptIfSafe(s: State, step: Step, s': State) {
    && (StakesOk(s) && IndexSafe(s, step) ==> StakesOk(s') && Capital(s') == Capital(s) + Minting(s, step))
    && (SupplyOk(s) && DepositSafe(s, step) ==> SupplyOk(s'))
    && (Supply(s) == s.pool.poolTotal && !step.BurnStep? ==>
          Supply(s') == s'.pool.poolTotal && DepositSafe(s, step))
    && (Inv(s) && Safe(s, step) ==> Inv(s'))
  }

  /** What a step from `s` to `s'` guarantees. */
  ghost predicate Guaranteed(s: State, step: Step, s': State) {
    AlwaysKept(s, step, s') && KeptIfSafe(s, step, s')
  }

  lemma {:induction false} AlwaysKeeps(s: State, step: Step)
    requires Next(s, step).Ok?
    ensures AlwaysKept(s, step, Next(s, step).value)
  {
    hide Next, Queued, ClockOk;
    PoolEpochStep(s, step);
    MintStep(s, step);
    if Queued(s) {
      QueueStep(s, step);
    }
    if ClockOk(s) {
      ClockStep(s, step);
    }
    if s.bank.reserve >= MIN_RESERVE_BALANCE || step.DepositStep? {
      FloorStep(s, step);
    }
  }

  lemma {:induction false} KeepsIfSafe(s: State, step: Step)
    requires Next(s, step).Ok?
    ensures KeptIfSafe(s, step, Next(s, step).value)
  {
    hide Next, Inv, StakesOk, Capital, Supply, Safe, IndexSafe, DepositSafe, Minting;
    if StakesOk(s) && IndexSafe(s, step) {
      StakesStep(s, step);
    }
    if SupplyOk(s) {
      SupplyStep(s, step);
    }
    if Inv(s) && Safe(s, step) {
      NextKeeps(s, step);
    }
  }

  /** Every step, committed or failed, from every state. */
  lemma {:induction false} StepGuarantees(s: State, step: Step)
    ensures Guaranteed(s, step, After(s, step))
  {
    hide Next, Inv, StakesOk, Capital, Queued, ClockOk;
    if Next(s, step).Ok? {
      hide AlwaysKept, KeptIfSafe;
      AlwaysKeeps(s, step);
      KeepsIfSafe(s, step);
    }
  }

  /** Each condition is exact for its part: a committed step that does not meet it
      leaves that part out of order. (A batch's length travels in 32 bits.) */
  lemma {:induction false} UnsafeBreaks(s: State, step: Step)
    requires StakesOk(s) && Next(s, step).Ok?
    requires step.DelegateStep? ==> |step.delegations| < U32_LIMIT
    ensures !DepositSafe(s, step) ==> !SupplyOk(Next(s, step).value)
    ensures !PaymentSafe(s, step) ==> !Backed(Next(s, step).value)
    ensures !IndexSafe(s, step) ==> !StakesOk(Next(s, step).value)
  {
    match step
    case DepositStep(amount, rent) => DepositSupply(s, amount, rent);
    case PayCreditorsStep(users, rent) => PayCreditorsKeeps(s, users, rent);
    case DelegateStep(batch, keys, rent) =>
      if !DelegateFits(batch) {
        var a := DelegateLoopAtLimit(Start(s), batch, keys, Spendable(s, rent), rent);
      }
    case UnstakeStep(batch, keys, rent) =>
      if !UnstakeFits(batch) {
        var a := UnstakeLoopAtLimit(Start(s), batch, keys, rent);
      }
    case _ =>
  }

  // ---- whole runs, part by part

  /** In every run the queue stays in order, and the supply within 64 bits. */
  lemma {:induction false} QueueInOrder(s0: State, steps: seq<Step>)
    requires Init(s0)
    ensures Queued(Exec(s0, steps)) && Supply(Exec(s0, steps)) < U64_LIMIT
    decreases |steps|
  {
    hide Next, Queued;
    InitOk(s0);
    if steps != [] {
      var n := |steps| - 1;
      QueueInOrder(s0, steps[..n]);
      StepGuarantees(Exec(s0, steps[..n]), steps[n]);
    }
  }

  /** In every run neither the pool nor a record is ahead of the clock. */
  lemma {:induction false} ClockInOrder(s0: State, steps: seq<Step>)
    requires Init(s0)
    ensures ClockOk(Exec(s0, steps)) && FeeOk(Exec(s0, steps))
    decreases |steps|
  {
    hide Next, ClockOk, FeeOk;
    InitOk(s0);
    if steps != [] {
      var n := |steps| - 1;
      ClockInOrder(s0, steps[..n]);
      StepGuarantees(Exec(s0, steps[..n]), steps[n]);
    }
  }

  /** Lamports rewards have added over a run. */
  function Rewards(s: State, steps: seq<Step>): nat
    decreases |steps|
  {
    if steps == [] then 0
    else Rewards(s, steps[..|steps| - 1]) + Minting(Exec(s, steps[..|steps| - 1]), steps[|steps| - 1])
  }

  /** As long as no stake count wraps the stakes stay in order and, over the whole run,
      no lamport appears but through rewards, and none vanishes. */
  lemma {:induction false} LamportsConserved(s0: State, steps: seq<Step>)
    requires Init(s0) && IndexSafeRun(s0, steps)
    ensures StakesOk(Exec(s0, steps))
    ensures Capital(Exec(s0, steps)) == Capital(s0) + Rewards(s0, steps)
    decreases |steps|
  {
    hide Next, StakesOk, Capital, IndexSafe, Minting;
    InitOk(s0);
    if steps != [] {
      var n := |steps| - 1;
      LamportsConserved(s0, steps[..n]);
      StepGuarantees(Exec(s0, steps[..n]), steps[n]);
    }
  }

  /** As long as no deposit wraps it, the recorded total covers the supply. */
  lemma {:induction false} SupplyCovered(s0: State, steps: seq<Step>)
    requires Init(s0) && DepositSafeRun(s0, steps)
    ensures SupplyOk(Exec(s0, steps))
    decreases |steps|
  {
    hide Next, DepositSafe, SupplyOk;
    InitOk(s0);
    if steps != [] {
      var n := |steps| - 1;
      SupplyCovered(s0, steps[..n]);
      StepGuarantees(Exec(s0, steps[..n]), steps[n]);
    }
  }

  /** As long as no holder burns tokens directly, the recorded total is the supply
      and, the mint refusing to overflow, no deposit can wrap it. */
  lemma {:induction false} SupplyIsExact(s0: State, steps: seq<Step>)
    requires Init(s0)
    requires forall i :: 0 <= i < |steps| ==> !steps[i].BurnStep?
    ensures Supply(Exec(s0, steps)) == Exec(s0, steps).pool.poolTotal
    ensures DepositSafeRun(s0, steps)
    decreases |steps|
  {
    hide Next, DepositSafe, Supply;
    InitOk(s0);
    if steps != [] {
      var n := |steps| - 1;
      SupplyIsExact(s0, steps[..n]);
      StepGuarantees(Exec(s0, steps[..n]), steps[n]);
    }
  }

  lemma {:induction false} RunKeeps(s: State, steps: seq<Step>)
    requires Inv(s) && SafeRun(s, steps)
    ensures Inv(Exec(s, steps))
    decreases |steps|
  {
    hide Next, Inv, DepositSafe, IndexSafe, PaymentSafe;
    if steps != [] {
      var n := |steps| - 1;
      RunKeeps(s, steps[..n]);
      StepGuarantees(Exec(s, steps[..n]), steps[n]);
    }
  }

  /** What holds in every state of every run. The queue is bounded, names every target
      once and is covered by the escrow. If no stake count wrapped, no stake account lies
      beyond its validator's count, and cached balances are covered, and zero where
      nothing is counted. If no deposit wrapped, the supply is within the recorded total.
      If neither did and no payment overdrew, the recorded stake is backed. */
  lemma {:induction false} EveryRunIsInOrder(s0: State, steps: seq<Step>)
    requires Init(s0)
    ensures var s := Exec(s0, steps);
            && DistinctTargets(s.credits) && |s.credits| <= MAX_CREDIT_RECORDS
            && CreditSum(s.credits) <= s.bank.escrow
    ensures var s := Exec(s0, steps);
            IndexSafeRun(s0, steps) ==>
              && (forall v, i: nat :: At(s.bank.accounts, StakeKey(v, i)).Stake? ==> i < CountOf(s.validators, v))
              && (forall k :: 0 <= k < |s.validators| ==>
                    && s.validators[k].balance <= OfRecord(s.validators[k], s.bank.accounts)
                    && (s.validators[k].stakeCount == 0 ==> s.validators[k].balance == 0))
    ensures var s := Exec(s0, steps);
            DepositSafeRun(s0, steps) ==> s.bank.circulating + s.bank.escrow <= s.pool.poolTotal
    ensures var s := Exec(s0, steps);
            SafeRun(s0, steps) ==> s.pool.stakeTotal <= s.bank.reserve + Listed(s.validators, s.bank.accounts)
  {
    hide Next, Exec, Init;
    var s := Exec(s0, steps);
    InitOk(s0);
    QueueInOrder(s0, steps);
    if IndexSafeRun(s0, steps) {
      LamportsConserved(s0, steps);
      forall v, i: nat | At(s.bank.accounts, StakeKey(v, i)).Stake? ensures i < CountOf(s.validators, v) {
        assert s.bank.accounts[StakeKey(v, i)].Stake?;
      }
    }
    if DepositSafeRun(s0, steps) {
      SupplyCovered(s0, steps);
    }
    if SafeRun(s0, steps) {
      RunKeeps(s0, steps);
    }
  }

  /** A pool refresh makes up for every overdrawn payment before it: in a run in which
      nothing else wraps, the pool is in order again from the refresh on, for as long as
      payments are then safe. */
  lemma {:induction false} RefreshRestoresBacking(s0: State, steps: seq<Step>, j: nat)
    requires Init(s0) && DepositSafeRun(s0, steps) && IndexSafeRun(s0, steps)
    requires j < |steps| && steps[j].UpdatePoolStep? && Next(Exec(s0, steps[..j]), steps[j]).Ok?
    requires PaymentSafeFrom(s0, steps, j + 1)
    ensures Inv(Exec(s0, steps))
    decreases |steps|
  {
    hide Next, Init, DepositSafe, IndexSafe, PaymentSafe;
    var n := |steps| - 1;
    var s := Exec(s0, steps[..n]);
    if j == n {
      QueueInOrder(s0, steps);
      ClockInOrder(s0, steps[..n]);
      ClockInOrder(s0, steps);
      LamportsConserved(s0, steps[..n]);
      SupplyCovered(s0, steps);
      RefreshBacks(s);
    } else {
      assert steps[..n][..j] == steps[..j];
      RefreshRestoresBacking(s0, steps[..n], j);
      StepGuarantees(s, steps[n]);
    }
  }

  lemma {:induction false} RefreshBacks(s: State)
    requires StakesOk(s) && ClockOk(s) && Next(s, UpdatePoolStep).Ok?
    ensures StakesOk(After(s, UpdatePoolStep)) && Backed(After(s, UpdatePoolStep))
  {
    UpdatePoolBalanceKeeps(s);
  }

  /** In every state of every run without direct burns no sequence of trades makes a
      profit, whatever payments overdrew and counts wrapped before. */
  lemma {:induction false} NoProfitInAnyRun(s0: State, steps: seq<Step>, trades: seq<Trading.Trade>, ownsFee: bool)
    requires Init(s0)
    requires forall i :: 0 <= i < |steps| ==> !steps[i].BurnStep?
    ensures var p := Trading.DoAll(Trading.Position(Exec(s0, steps), 0, 0, 0), trades, ownsFee); p.taken <= p.put
  {
    hide Next, Exec, Init;
    SupplyIsExact(s0, steps);
    Trading.NoProfitWhenBounded(Exec(s0, steps), trades, ownsFee);
  }

  /** In every state of every run neither a payment nor an uncredit ever finds the escrow
      short, or the receiving account too full. */
  lemma {:induction false} TokensNeverLack(s0: State, steps: seq<Step>, users: seq<UserInfo>, rent: Rent,
                                           amount: u64, target: Pubkey, authority: Pubkey, signed: bool)
    requires Init(s0)
    ensures PayCreditors(Exec(s0, steps), users, rent) != Err(TokenFailure)
    ensures Uncredit(Exec(s0, steps), amount, target, authority, signed) != Err(TokenFailure)
  {
    hide Next, Exec, Init, PayCreditors, Uncredit;
    QueueInOrder(s0, steps);
    PayNeverLacksTokens(Exec(s0, steps), users, rent);
    UncreditKeeps(Exec(s0, steps), amount, target, authority, signed);
  }

  /** A pool is initialized once. */
  lemma {:induction false} InitializedOnce(s0: State, steps: seq<Step>, fee: Fee)
    requires Init(s0)
    ensures Initialize(Exec(s0, steps), fee) == Err(AlreadyInUse)
    decreases |steps|
  {
    hide Next;
    InitOk(s0);
    if steps != [] {
      var n := |steps| - 1;
      InitializedOnce(s0, steps[..n], fee);
      StepGuarantees(Exec(s0, steps[..n]), steps[n]);
    }
  }

  /** Once a deposit has committed, the reserve stays at or above its floor, whatever
      else happens. */
  lemma {:induction false} ReserveFloor(s0: State, steps: seq<Step>, i: nat, n: nat)
    requires i < n <= |steps|
    requires steps[i].DepositStep? && Next(Exec(s0, steps[..i]), steps[i]).Ok?
    ensures Exec(s0, steps[..n]).bank.reserve >= MIN_RESERVE_BALANCE
    decreases n
  {
    hide Next;
    assert steps[..n][..n - 1] == steps[..n - 1];
    StepGuarantees(Exec(s0, steps[..n - 1]), steps[n - 1]);
    if i < n - 1 {
      ReserveFloor(s0, steps, i, n - 1);
    }
  }
}
