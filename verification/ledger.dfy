/** The part of the chain the program touches: the reserve, the numbered stake
    accounts of each validator and the pool token. The system, token and stake
    programs appear only through the balance changes they make. */
module Ledger {
  import opened Machine
  import opened Data

  /** Stake accounts live at addresses derived from (validator, index);
      the derivation is injective. */
  datatype StakeKey = StakeKey(validator: Pubkey, index: nat)

  datatype Address = Wallet(key: Pubkey) | Pda(stake: StakeKey)

  /** `redelegable` and `joinable` are what the stake program, going by the activation of
      the stake, lets be done with it at present. */
  datatype StakeState =
    | Uninitialized
    | Initialized(rentReserve: u64)
    | Delegated(rentReserve: u64, stake: u64, creditsObserved: u64, redelegable: bool, joinable: bool)
    | RewardsPool

  /** An account owned by the system program, or by the stake program. */
  datatype Account = System(lamports: u64) | Stake(lamports: u64, state: StakeState)

  type Accounts = map<StakeKey, Account>

  datatype Rent = Rent(empty: u64, token: u64, stake: u64)

  /** `circulating` is everything held in user and fee token accounts, `escrow`
      the credit reserve; together they are the mint's supply. `outside` is every
      lamport that is neither in the reserve nor in a listed stake account. */
  datatype Bank = Bank(
    reserve: u64, accounts: Accounts, circulating: u64, escrow: u64, outside: u64, epoch: u64)

  datatype State = State(
    pool: StakePool, validators: seq<ValidatorStakeInfo>, credits: seq<CreditRecord>, bank: Bank)

  function At(accounts: Accounts, a: StakeKey): Account {
    if a in accounts then accounts[a] else System(0)
  }

  /** A stake account that is drained is purged and reverts to the system program. */
  function Holding(lamports: u64, state: StakeState): Account {
    if lamports == 0 then System(0) else Stake(lamports, state)
  }

  function MinReserve(rent: Rent): (r: u64)
    ensures r >= MIN_RESERVE_BALANCE && (rent.empty + rent.token < U64_LIMIT ==> r >= rent.empty + rent.token)
    ensures r == MIN_RESERVE_BALANCE || r == (rent.empty + rent.token) % U64_LIMIT
  {
    WrapsModulo(rent.empty, rent.token);
    Max(MIN_RESERVE_BALANCE, WrapAdd64(rent.empty, rent.token))
  }

  /** What a batch may take out of the reserve. */
  function Spendable(s: State, rent: Rent): (r: u64)
    ensures if s.bank.reserve <= MinReserve(rent) then r == 0 else r + MinReserve(rent) == s.bank.reserve
  {
    SaturatingSub64(s.bank.reserve, MinReserve(rent))
  }

  function CountOf(list: seq<ValidatorStakeInfo>, v: Pubkey): u32 {
    match Find(list, v)
    case Some(k) => list[k].stakeCount
    case None => 0
  }

  /** Lamports in the first `n` stake accounts of validator `v`. */
  function Lamports(accounts: Accounts, v: Pubkey, n: nat): nat {
    if n == 0 then 0
    else Lamports(accounts, v, n - 1) + At(accounts, StakeKey(v, n - 1)).lamports
  }

  /** Lamports in the counted stake accounts of the first `n` listed validators. */
  function ListedTo(list: seq<ValidatorStakeInfo>, accounts: Accounts, n: nat): nat
    requires n <= |list|
  {
    if n == 0 then 0
    else ListedTo(list, accounts, n - 1) + OfRecord(list[n - 1], accounts)
  }

  function OfRecord(r: ValidatorStakeInfo, accounts: Accounts): nat {
    Lamports(accounts, r.validator, r.stakeCount)
  }

  function Listed(list: seq<ValidatorStakeInfo>, accounts: Accounts): nat {
    ListedTo(list, accounts, |list|)
  }

  ghost predicate Distinct(list: seq<ValidatorStakeInfo>) {
    forall i, j :: 0 <= i < j < |list| ==> list[i].validator != list[j].validator
  }

  /** No stake-program account sits at an index its validator does not count,
      and none is empty. */
  ghost predicate NoStranded(list: seq<ValidatorStakeInfo>, accounts: Accounts) {
    forall a :: a in accounts && accounts[a].Stake? ==>
      a.index < CountOf(list, a.validator) && accounts[a].lamports > 0
  }

  ghost predicate Book(list: seq<ValidatorStakeInfo>, accounts: Accounts) {
    Distinct(list) && NoStranded(list, accounts)
  }

  /** Every cached balance is covered by the accounts it stands for. */
  ghost predicate Covered(list: seq<ValidatorStakeInfo>, accounts: Accounts) {
    forall k :: 0 <= k < |list| ==> list[k].balance <= OfRecord(list[k], accounts)
  }

  lemma {:induction false} CountOfListed(list: seq<ValidatorStakeInfo>, k: nat)
    requires Distinct(list) && k < |list|
    ensures Find(list, list[k].validator) == Some(k)
    ensures CountOf(list, list[k].validator) == list[k].stakeCount
  {
  }

  lemma {:induction false} LamportsUpdate(accounts: Accounts, v: Pubkey, n: nat, a: StakeKey, acc: Account)
    ensures Lamports(accounts[a := acc], v, n)
         == Lamports(accounts, v, n)
          + (if a.validator == v && a.index < n then acc.lamports - At(accounts, a).lamports else 0)
  {
    if n > 0 {
      LamportsUpdate(accounts, v, n - 1, a, acc);
    }
  }

  lemma {:induction false} ListedUpdate(list: seq<ValidatorStakeInfo>, accounts: Accounts, n: nat,
                                        k: nat, i: nat, acc: Account)
    requires Distinct(list) && n <= |list| && k < |list| && i < list[k].stakeCount
    ensures ListedTo(list, accounts[StakeKey(list[k].validator, i) := acc], n)
         == ListedTo(list, accounts, n)
          + (if k < n then acc.lamports - At(accounts, StakeKey(list[k].validator, i)).lamports else 0)
  {
    if n > 0 {
      ListedUpdate(list, accounts, n - 1, k, i, acc);
      LamportsUpdate(accounts, list[n - 1].validator, list[n - 1].stakeCount,
                     StakeKey(list[k].validator, i), acc);
    }
  }

  lemma {:induction false} ListedReplace(list: seq<ValidatorStakeInfo>, accounts: Accounts, n: nat,
                                         k: nat, r: ValidatorStakeInfo)
    requires n <= |list| && k < |list|
    ensures ListedTo(list[k := r], accounts, n)
         == ListedTo(list, accounts, n)
          + (if k < n then OfRecord(r, accounts) - OfRecord(list[k], accounts) else 0)
  {
    if n > 0 {
      ListedReplace(list, accounts, n - 1, k, r);
    }
  }

  /** Each listed validator is counted within the total. */
  lemma {:induction false} RecordWithinListed(list: seq<ValidatorStakeInfo>, accounts: Accounts, n: nat, k: nat)
    requires k < n <= |list|
    ensures OfRecord(list[k], accounts) <= ListedTo(list, accounts, n)
  {
    if k < n - 1 {
      RecordWithinListed(list, accounts, n - 1, k);
    }
  }

  lemma {:induction false} AccountWithinRecord(accounts: Accounts, v: Pubkey, n: nat, i: nat)
    requires i < n
    ensures At(accounts, StakeKey(v, i)).lamports <= Lamports(accounts, v, n)
  {
    if i < n - 1 {
      AccountWithinRecord(accounts, v, n - 1, i);
    }
  }

  /** Replacing the `k`-th record by one for the same validator. */
  lemma {:induction false} CountOfReplaced(list: seq<ValidatorStakeInfo>, k: nat, r: ValidatorStakeInfo, v: Pubkey)
    requires Distinct(list) && k < |list| && r.validator == list[k].validator
    ensures Distinct(list[k := r])
    ensures CountOf(list[k := r], v) == if v == r.validator then r.stakeCount else CountOf(list, v)
  {
    CountOfListed(list, k);
    CountOfListed(list[k := r], k);
    if v != r.validator && Find(list, v).Some? {
      assert list[k := r][Find(list, v).value].validator == v;
    }
  }

  /** What one change of a counted account does: the books stay in order, the
      validator's total moves by the difference and nobody else's moves. */
  lemma {:induction false} TouchAccount(list: seq<ValidatorStakeInfo>, accounts: Accounts, k: nat, i: nat, acc: Account)
    requires Book(list, accounts) && k < |list| && i < list[k].stakeCount
    requires acc.Stake? ==> acc.lamports > 0
    ensures var a := StakeKey(list[k].validator, i);
            var accounts' := accounts[a := acc];
            && Book(list, accounts')
            && (forall j :: 0 <= j < |list| ==>
                  OfRecord(list[j], accounts') == OfRecord(list[j], accounts)
                    + (if j == k then acc.lamports - At(accounts, a).lamports else 0))
            && Listed(list, accounts') == Listed(list, accounts) + acc.lamports - At(accounts, a).lamports
  {
    var a := StakeKey(list[k].validator, i);
    CountOfListed(list, k);
    ListedUpdate(list, accounts, |list|, k, i, acc);
    forall j | 0 <= j < |list|
      ensures OfRecord(list[j], accounts[a := acc]) == OfRecord(list[j], accounts)
                + (if j == k then acc.lamports - At(accounts, a).lamports else 0)
    {
      LamportsUpdate(accounts, list[j].validator, list[j].stakeCount, a, acc);
    }
  }

  /** What it does to put an account at the first uncounted index and count it. */
  lemma {:induction false} GrowCount(list: seq<ValidatorStakeInfo>, accounts: Accounts, k: nat, r: ValidatorStakeInfo,
                                     acc: Account)
    requires Book(list, accounts) && k < |list|
    requires r.validator == list[k].validator && r.stakeCount == list[k].stakeCount + 1
    requires At(accounts, StakeKey(r.validator, list[k].stakeCount)).lamports == 0
    requires acc.Stake? ==> acc.lamports > 0
    ensures var list' := list[k := r];
            var accounts' := accounts[StakeKey(r.validator, list[k].stakeCount) := acc];
            && Book(list', accounts')
            && (forall j :: 0 <= j < |list| ==>
                  OfRecord(list'[j], accounts') == OfRecord(list[j], accounts) + (if j == k then acc.lamports else 0))
            && Listed(list', accounts') == Listed(list, accounts) + acc.lamports
  {
    var a := StakeKey(r.validator, list[k].stakeCount);
    var accounts' := accounts[a := acc];
    forall b | b in accounts' && accounts'[b].Stake?
      ensures b.index < CountOf(list[k := r], b.validator) && accounts'[b].lamports > 0
    {
      CountOfReplaced(list, k, r, b.validator);
      CountOfListed(list, k);
    }
    CountOfReplaced(list, k, r, r.validator);
    ListedUncounted(list, accounts, |list|, k, acc);
    ListedReplace(list, accounts', |list|, k, r);
    forall j | 0 <= j < |list|
      ensures OfRecord(list[k := r][j], accounts') == OfRecord(list[j], accounts) + (if j == k then acc.lamports else 0)
    {
      LamportsUpdate(accounts, list[j].validator, list[j].stakeCount, a, acc);
    }
  }

  lemma {:induction false} ListedUncounted(list: seq<ValidatorStakeInfo>, accounts: Accounts, n: nat, k: nat,
                                           acc: Account)
    requires Distinct(list) && n <= |list| && k < |list|
    ensures ListedTo(list, accounts[StakeKey(list[k].validator, list[k].stakeCount) := acc], n)
         == ListedTo(list, accounts, n)
  {
    if n > 0 {
      ListedUncounted(list, accounts, n - 1, k, acc);
      LamportsUpdate(accounts, list[n - 1].validator, list[n - 1].stakeCount,
                     StakeKey(list[k].validator, list[k].stakeCount), acc);
    }
  }

  lemma {:induction false} EmptyTail(accounts: Accounts, v: Pubkey, m: nat, n: nat)
    requires m <= n
    requires forall i :: m <= i < n ==> At(accounts, StakeKey(v, i)).lamports == 0
    ensures Lamports(accounts, v, n) == Lamports(accounts, v, m)
  {
    if m < n {
      EmptyTail(accounts, v, m, n - 1);
    }
  }

  /** What it does to stop counting a tail of purged accounts. */
  lemma {:induction false} ShrinkCount(list: seq<ValidatorStakeInfo>, accounts: Accounts, k: nat, r: ValidatorStakeInfo)
    requires Book(list, accounts) && k < |list|
    requires r.validator == list[k].validator && r.stakeCount <= list[k].stakeCount
    requires forall i :: r.stakeCount <= i < list[k].stakeCount ==> At(accounts, StakeKey(r.validator, i)) == System(0)
    ensures Book(list[k := r], accounts)
    ensures OfRecord(r, accounts) == OfRecord(list[k], accounts)
    ensures Listed(list[k := r], accounts) == Listed(list, accounts)
  {
    forall b | b in accounts && accounts[b].Stake?
      ensures b.index < CountOf(list[k := r], b.validator) && accounts[b].lamports > 0
    {
      CountOfReplaced(list, k, r, b.validator);
      CountOfListed(list, k);
      assert At(accounts, StakeKey(b.validator, b.index)).Stake?;
    }
    CountOfReplaced(list, k, r, r.validator);
    EmptyTail(accounts, r.validator, r.stakeCount, list[k].stakeCount);
    ListedReplace(list, accounts, |list|, k, r);
  }
}
