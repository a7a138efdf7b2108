/** The records the program stores in its three accounts, and its error codes. */
module Data {
  import opened Machine

  type Bytes32 = b: seq<byte> | |b| == 32 witness seq(32, _ => 0)

  datatype Pubkey = Pubkey(bytes: Bytes32)

  datatype Fee = Fee(denominator: u64, numerator: u64)

  datatype StakePool = StakePool(
    version: byte,
    owner: Pubkey,
    depositBumpSeed: byte,
    withdrawBumpSeed: byte,
    validatorStakeList: Pubkey,
    creditList: Pubkey,
    poolMint: Pubkey,
    ownerFeeAccount: Pubkey,
    creditReserve: Pubkey,
    tokenProgramId: Pubkey,
    stakeTotal: u64,
    poolTotal: u64,
    lastUpdateEpoch: u64,
    fee: Fee)

  datatype ValidatorStakeInfo = ValidatorStakeInfo(
    validator: Pubkey, balance: u64, lastUpdateEpoch: u64, stakeCount: u32)

  datatype CreditRecord = CreditRecord(
    solTarget: Pubkey, cancelAuthority: Pubkey, tokenAmount: u64)

  datatype DelegateReserveInstruction = DelegateReserveInstruction(amount: u64, stakeIndex: u32)

  datatype MergeStakesInstruction = MergeStakesInstruction(validator: Pubkey, mainIndex: u32, additionalIndex: u32)

  datatype UnstakeInstruction = UnstakeInstruction(
    validator: Pubkey, sourceIndex: u32, splitIndex: u32, amount: u64)

  const MAX_VALIDATORS := 100
  const MAX_CREDIT_RECORDS := 1000
  const MIN_STAKE_ACCOUNT_BALANCE: u64 := 100_000_000
  const MIN_RESERVE_BALANCE: u64 := 1_000_000

  // The last five stand for a panic and for failures of the system, token and stake programs.
  datatype Error =
    | InvalidArgument
    | IncorrectProgramId
    | MissingRequiredSignature
    | CalculationFailure
    | AlreadyInUse
    | MintHasInitialSupply
    | FeeTooHigh
    | FirstDepositIsTooSmall
    | InsufficientFunds
    | CreditListOverflow
    | UnknownCreditor
    | StakeListOutOfDate
    | StakeListAndPoolOutOfDate
    | ValidatorListOverflow
    | ValidatorAlreadyAdded
    | ValidatorHasStakes
    | ValidatorNotFound
    | InvalidStakeIndex
    | InvalidStakeAccountAddress
    | NotEnoughAccountKeys
    | WrongStakeState
    | InvalidAccountData
    | ProgramPanicked
    | TransferFailed
    | AccountInUse
    | TokenFailure
    | StakeProgramFailure

  /** First record kept for validator `v`. */
  function Find(list: seq<ValidatorStakeInfo>, v: Pubkey): (r: Option<nat>)
    ensures r.Some? ==> r.value < |list| && list[r.value].validator == v
    ensures r.Some? ==> forall i :: 0 <= i < r.value ==> list[i].validator != v
    ensures r.None? ==> forall i :: 0 <= i < |list| ==> list[i].validator != v
  {
    FindFrom(list, v, 0)
  }

  function FindFrom(list: seq<ValidatorStakeInfo>, v: Pubkey, from: nat): (r: Option<nat>)
    requires from <= |list|
    ensures r.Some? ==> from <= r.value < |list| && list[r.value].validator == v
    ensures r.Some? ==> forall i :: from <= i < r.value ==> list[i].validator != v
    ensures r.None? ==> forall i :: from <= i < |list| ==> list[i].validator != v
    decreases |list| - from
  {
    if from == |list| then None
    else if list[from].validator == v then Some(from)
    else FindFrom(list, v, from + 1)
  }

  /** First credit waiting for `target`. */
  function FindCredit(list: seq<CreditRecord>, target: Pubkey): (r: Option<nat>)
    ensures r.Some? ==> r.value < |list| && list[r.value].solTarget == target
    ensures r.Some? ==> forall i :: 0 <= i < r.value ==> list[i].solTarget != target
    ensures r.None? ==> forall i :: 0 <= i < |list| ==> list[i].solTarget != target
  {
    FindCreditFrom(list, target, 0)
  }

  function FindCreditFrom(list: seq<CreditRecord>, target: Pubkey, from: nat): (r: Option<nat>)
    requires from <= |list|
    ensures r.Some? ==> from <= r.value < |list| && list[r.value].solTarget == target
    ensures r.Some? ==> forall i :: from <= i < r.value ==> list[i].solTarget != target
    ensures r.None? ==> forall i :: from <= i < |list| ==> list[i].solTarget != target
    decreases |list| - from
  {
    if from == |list| then None
    else if list[from].solTarget == target then Some(from)
    else FindCreditFrom(list, target, from + 1)
  }
}
