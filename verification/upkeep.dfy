/** Refreshing the cached balances, and maintaining the validator list. */
module Upkeep {
  import opened Machine
  import opened Data
  import opened Ledger
  import opened Invariants
  import opened Staking

  /** Progress through one validator's stake accounts. */
  datatype Sweep = Sweep(accounts: Accounts, reserve: u64, balance: u64, count: u32)

  /** Lamports the handler takes to be free in a stake account. */
  function Free(acc: Account): u64
    requires acc.Stake?
  {
    match acc.state
    case Initialized(rent) => WrapSub64(acc.lamports, rent)
    case Delegated(rent, stake, _, _, _) => WrapSub64(WrapSub64(acc.lamports, rent), stake)
    case _ => acc.lamports
  }

  function SweepOne(w: Sweep, v: Pubkey, i: u32, key: Address): Result<Sweep, Error>
    requires i + 1 < U32_LIMIT
  {
    var a := StakeKey(v, i);
    var acc := At(w.accounts, a);
    if key != Pda(a) then Err(InvalidStakeAccountAddress)
    else if acc.lamports == 0 then Ok(w)
    else if acc.Stake? && acc.state.RewardsPool? then Err(WrongStakeState)
    else if acc.Stake? then
      if Free(acc) > acc.lamports || w.reserve + Free(acc) >= U64_LIMIT then Err(StakeProgramFailure)
      else
        var left := acc.lamports - Free(acc);
        Ok(Sweep(w.accounts[a := Holding(left, acc.state)], w.reserve + Free(acc), WrapAdd64(w.balance, left), i + 1))
    else if w.reserve + acc.lamports >= U64_LIMIT then Err(TransferFailed)
    else Ok(w.(accounts := w.accounts[a := System(0)], reserve := w.reserve + acc.lamports))
  }

  function SweepLoop(w: Sweep, v: Pubkey, i: u32, n: u32, keys: seq<Address>): Result<Sweep, Error>
    requires i <= n
    decreases n - i
  {
    if i == n then Ok(w)
    else if keys == [] then Err(NotEnoughAccountKeys)
    else
      var w1 :- SweepOne(w, v, i, keys[0]);
      SweepLoop(w1, v, i + 1, n, keys[1..])
  }

  datatype ListWork = ListWork(list: seq<ValidatorStakeInfo>, accounts: Accounts, reserve: u64)

  /** Refresh the `k`-th validator from the keys that follow its vote account. */
  function RefreshOne(w: ListWork, k: nat, keys: seq<Address>, epoch: u64): Result<ListWork, Error>
    requires k < |w.list|
  {
    var v := w.list[k];
    var sweep :- SweepLoop(Sweep(w.accounts, w.reserve, 0, 0), v.validator, 0, v.stakeCount, keys);
    Ok(ListWork(
      w.list[k := v.(balance := sweep.balance, stakeCount := sweep.count, lastUpdateEpoch := epoch)],
      sweep.accounts, sweep.reserve))
  }

  function RefreshLoop(w: ListWork, keys: seq<Address>, epoch: u64): Result<ListWork, Error>
    decreases |keys|
  {
    if keys == [] then Ok(w)
    else
      match FindVote(w.list, keys[0])
      case None => Err(ValidatorNotFound)
      case Some(k) =>
        var n := w.list[k].stakeCount;
        var w1 :- RefreshOne(w, k, keys[1..], epoch);
        if |keys| < 1 + n then Err(NotEnoughAccountKeys)
        else RefreshLoop(w1, keys[1 + n..], epoch)
  }

  function UpdateListBalance(s: State, keys: seq<Address>): Result<State, Error> {
    var w :- RefreshLoop(ListWork(s.validators, s.bank.accounts, s.bank.reserve), keys, s.bank.epoch);
    Ok(s.(validators := w.list, bank := s.bank.(accounts := w.accounts, reserve := w.reserve)))
  }

  function TotalLoop(list: seq<ValidatorStakeInfo>, i: nat, total: u64, epoch: u64): Result<u64, Error>
    requires i <= |list|
    decreases |list| - i
  {
    if i == |list| then Ok(total)
    else if list[i].lastUpdateEpoch < epoch then Err(StakeListOutOfDate)
    else TotalLoop(list, i + 1, WrapAdd64(total, list[i].balance), epoch)
  }

  function UpdatePoolBalance(s: State): Result<State, Error> {
    var total :- TotalLoop(s.validators, 0, s.bank.reserve, s.bank.epoch);
    Ok(s.(pool := s.pool.(stakeTotal := total, lastUpdateEpoch := s.bank.epoch)))
  }

  function AddValidator(s: State, v: Pubkey): Result<State, Error> {
    if s.pool.lastUpdateEpoch < s.bank.epoch then Err(StakeListAndPoolOutOfDate)
    else if |s.validators| >= MAX_VALIDATORS then Err(ValidatorListOverflow)
    else if Find(s.validators, v).Some? then Err(ValidatorAlreadyAdded)
    else Ok(s.(validators := s.validators + [ValidatorStakeInfo(v, 0, s.bank.epoch, 0)]))
  }

  function RemoveValidator(s: State, v: Pubkey): Result<State, Error> {
    if s.pool.lastUpdateEpoch < s.bank.epoch then Err(StakeListAndPoolOutOfDate)
    else
      match Find(s.validators, v)
      case None => Err(ValidatorNotFound)
      case Some(k) =>
        if s.validators[k].stakeCount > 0 then Err(ValidatorHasStakes)
        else Ok(s.(validators := s.validators[..k] + s.validators[k + 1..]))
  }
}

module UpkeepProofs {
  import opened Machine
  import opened Data
  import opened Ledger
  import opened Invariants
  import opened Staking
  import opened Upkeep
  import Contents = UpkeepContents

  lemma {:induction false} LamportsMono(accounts: Accounts, v: Pubkey, m: nat, n: nat)
    requires m <= n
    ensures Lamports(accounts, v, m) <= Lamports(accounts, v, n)
  {
    if m < n {
      LamportsMono(accounts, v, m, n - 1);
    }
  }

  /** While validator `k` of `list` is swept up to index `i`: the list's books are in
      order, no lamport is lost, nobody else is touched, and `balance` is exactly
      what is left in the accounts passed, all of it below `count`. */
  ghost predicate SweepOk(list: seq<ValidatorStakeInfo>, w0: Sweep, w: Sweep, k: nat, i: nat)
    requires k < |list|
  {
    && Book(list, w.accounts)
    && w.reserve + Listed(list, w.accounts) == w0.reserve + Listed(list, w0.accounts) < U64_LIMIT
    && (forall j :: 0 <= j < |list| && j != k ==> OfRecord(list[j], w.accounts) == OfRecord(list[j], w0.accounts))
    && w.balance == Lamports(w.accounts, list[k].validator, i)
    && w.count <= i <= list[k].stakeCount
    && (forall j :: w.count <= j < i ==> At(w.accounts, StakeKey(list[k].validator, j)) == System(0))
  }

  /** Account `i` gives lamports to the reserve and keeps `acc`. */
  lemma {:induction false} SweepAccount(list: seq<ValidatorStakeInfo>, w0: Sweep, w: Sweep, w1: Sweep, k: nat, i: u32,
                                        acc: Account)
    requires k < |list| && SweepOk(list, w0, w, k, i) && i < list[k].stakeCount
    requires acc.Stake? ==> acc.lamports > 0
    requires w1.accounts == w.accounts[StakeKey(list[k].validator, i) := acc]
    requires w1.reserve + acc.lamports == w.reserve + At(w.accounts, StakeKey(list[k].validator, i)).lamports
    requires w1.balance == WrapAdd64(w.balance, acc.lamports)
    requires w1.count == i + 1 || (acc == System(0) && w1.count == w.count)
    ensures SweepOk(list, w0, w1, k, i + 1)
  {
    TouchAccount(list, w.accounts, k, i, acc);
    SweptSoFar(list, w.accounts, k, i, acc);
  }

  lemma {:induction false} SweptSoFar(list: seq<ValidatorStakeInfo>, accounts: Accounts, k: nat, i: nat, acc: Account)
    requires k < |list| && i < list[k].stakeCount
    ensures var v := list[k].validator;
            var accounts' := accounts[StakeKey(v, i) := acc];
            Lamports(accounts', v, i + 1) == Lamports(accounts, v, i) + acc.lamports <= Listed(list, accounts')
  {
    var v, a := list[k].validator, StakeKey(list[k].validator, i);
    LamportsUpdate(accounts, v, i, a, acc);
    LamportsMono(accounts[a := acc], v, i + 1, list[k].stakeCount);
    RecordWithinListed(list, accounts[a := acc], |list|, k);
  }

  lemma {:induction false} SweepOneKeeps(list: seq<ValidatorStakeInfo>, w0: Sweep, w: Sweep, k: nat, i: u32,
                                         key: Address)
    requires k < |list| && SweepOk(list, w0, w, k, i) && i < list[k].stakeCount
    requires SweepOne(w, list[k].validator, i, key).Ok?
    ensures SweepOk(list, w0, SweepOne(w, list[k].validator, i, key).value, k, i + 1)
    ensures w.reserve <= SweepOne(w, list[k].validator, i, key).value.reserve
  {
    var w1 := SweepOne(w, list[k].validator, i, key).value;
    var a := StakeKey(list[k].validator, i);
    if At(w.accounts, a).lamports == 0 {
      assert At(w.accounts, a) == System(0);
    } else {
      SweepAccount(list, w0, w, w1, k, i, w1.accounts[a]);
    }
  }

  lemma {:induction false} SweepLoopKeeps(list: seq<ValidatorStakeInfo>, w0: Sweep, w: Sweep, k: nat, i: u32,
                                          keys: seq<Address>)
    requires k < |list| && SweepOk(list, w0, w, k, i)
    requires SweepLoop(w, list[k].validator, i, list[k].stakeCount, keys).Ok?
    ensures SweepOk(list, w0, SweepLoop(w, list[k].validator, i, list[k].stakeCount, keys).value, k, list[k].stakeCount)
    ensures w.reserve <= SweepLoop(w, list[k].validator, i, list[k].stakeCount, keys).value.reserve
    ensures list[k].stakeCount - i <= |keys|
    ensures forall j :: 0 <= j < list[k].stakeCount - i ==> keys[j].Pda?
    decreases list[k].stakeCount - i
  {
    if i < list[k].stakeCount {
      SweepOneKeeps(list, w0, w, k, i, keys[0]);
      SweepLoopKeeps(list, w0, SweepOne(w, list[k].validator, i, keys[0]).value, k, i + 1, keys[1..]);
    }
  }

  /** Record `r` was refreshed in `epoch`: its cached balance is exact. */
  ghost predicate Exact(r: ValidatorStakeInfo, accounts: Accounts, epoch: u64) {
    r.balance == OfRecord(r, accounts) && r.lastUpdateEpoch == epoch
  }

  ghost predicate SameNames(a: seq<ValidatorStakeInfo>, b: seq<ValidatorStakeInfo>) {
    |a| == |b| && (forall k :: 0 <= k < |a| ==> a[k].validator == b[k].validator)
  }

  ghost predicate RefreshOk(s: State, w: ListWork) {
    && Book(w.list, w.accounts)
    && SameNames(s.validators, w.list)
    && Covered(w.list, w.accounts)
    && w.reserve + Listed(w.list, w.accounts) == Assets(s)
    && s.bank.reserve <= w.reserve
  }

  lemma {:induction false} RefreshOneKeeps(s: State, w: ListWork, k: nat, keys: seq<Address>)
    requires Capital(s) < U64_LIMIT && RefreshOk(s, w) && k < |w.list|
    requires RefreshOne(w, k, keys, s.bank.epoch).Ok?
    ensures var w1 := RefreshOne(w, k, keys, s.bank.epoch).value;
            && RefreshOk(s, w1)
            && Exact(w1.list[k], w1.accounts, s.bank.epoch)
            && (forall j :: 0 <= j < |w.list| && j != k ==>
                  w1.list[j] == w.list[j] && OfRecord(w1.list[j], w1.accounts) == OfRecord(w.list[j], w.accounts))
    ensures w.list[k].stakeCount <= |keys|
    ensures forall j :: 0 <= j < w.list[k].stakeCount ==> keys[j].Pda?
  {
    var w1 := RefreshOne(w, k, keys, s.bank.epoch).value;
    var start := Sweep(w.accounts, w.reserve, 0, 0);
    SweepLoopKeeps(w.list, start, start, k, 0, keys);
    ShrinkCount(w.list, w1.accounts, k, w1.list[k]);
  }

  lemma {:induction false} RefreshLoopKeeps(s: State, w: ListWork, keys: seq<Address>)
    requires Capital(s) < U64_LIMIT && RefreshOk(s, w)
    requires RefreshLoop(w, keys, s.bank.epoch).Ok?
    ensures var w' := RefreshLoop(w, keys, s.bank.epoch).value;
            && RefreshOk(s, w')
            && (forall j :: 0 <= j < |w.list| && Wallet(w.list[j].validator) in keys ==>
                  Exact(w'.list[j], w'.accounts, s.bank.epoch))
            && (forall j :: 0 <= j < |w.list| && Wallet(w.list[j].validator) !in keys ==> w'.list[j] == w.list[j])
            && (forall j :: 0 <= j < |w.list| && Exact(w.list[j], w.accounts, s.bank.epoch) ==>
                  Exact(w'.list[j], w'.accounts, s.bank.epoch))
    decreases |keys|
  {
    hide RefreshOne, NoStranded, ListedTo, Lamports, Covered;
    if keys != [] {
      var k := FindVote(w.list, keys[0]).value;
      var n := w.list[k].stakeCount;
      RefreshOneKeeps(s, w, k, keys[1..]);
      var w1 := RefreshOne(w, k, keys[1..], s.bank.epoch).value;
      RefreshLoopKeeps(s, w1, keys[1 + n..]);
      forall j | 0 <= j < |w.list| && j != k && Wallet(w.list[j].validator) in keys
        ensures Wallet(w.list[j].validator) in keys[1 + n..]
      {
        NamedLater(keys, n, Wallet(w.list[j].validator));
      }
    }
  }

  /** A wallet key among stake accounts can only come after them. */
  lemma {:induction false} NamedLater(keys: seq<Address>, n: nat, a: Address)
    requires 1 + n <= |keys| && a in keys && a.Wallet? && a != keys[0]
    requires forall j :: 0 <= j < n ==> keys[1..][j].Pda?
    ensures a in keys[1 + n..]
  {
    var i :| 0 <= i < |keys| && keys[i] == a;
    assert forall j :: 1 <= j < 1 + n ==> keys[j] == keys[1..][j - 1];
    assert keys[1 + n..][i - (1 + n)] == a;
  }

  /** A committed list update keeps the pool in order, moves lamports only into the
      reserve, and leaves an exact cached balance for every validator it names. */
  lemma {:induction false} UpdateListBalanceKeeps(s: State, keys: seq<Address>)
    requires StakesOk(s) && UpdateListBalance(s, keys).Ok?
    ensures var s' := UpdateListBalance(s, keys).value;
            && StakesOk(s') && (Inv(s) ==> Inv(s'))
            && Contents.ListSwept(s.validators, s.bank.accounts, s'.bank.accounts, keys)
            && Contents.ListTrimmed(s.validators, s'.validators, s.bank.accounts, s'.bank.accounts, keys)
            && s'.bank.reserve - s.bank.reserve
               == Listed(s.validators, s.bank.accounts) - Listed(s'.validators, s'.bank.accounts)
            && Assets(s') == Assets(s) && Capital(s') == Capital(s)
            && s'.bank.reserve >= s.bank.reserve
            && SameNames(s.validators, s'.validators)
            && (forall j :: 0 <= j < |s'.validators| && Wallet(s'.validators[j].validator) in keys ==>
                  Exact(s'.validators[j], s'.bank.accounts, s.bank.epoch))
            && (forall j :: 0 <= j < |s'.validators| && Wallet(s'.validators[j].validator) !in keys ==>
                  s'.validators[j] == s.validators[j])
            && (forall j :: 0 <= j < |s'.validators| && Exact(s.validators[j], s.bank.accounts, s.bank.epoch) ==>
                  Exact(s'.validators[j], s'.bank.accounts, s.bank.epoch))
  {
    hide Contents.ListSwept, Contents.ListTrimmed;
    var w := ListWork(s.validators, s.bank.accounts, s.bank.reserve);
    RefreshLoopKeeps(s, w, keys);
    RefreshLoopAnywhere(w, keys, s.bank.epoch);
    Contents.UpdateListExactly(s, keys);
  }

  // ---- in any state

  lemma {:induction false} SweepLoopRaises(w: Sweep, v: Pubkey, i: u32, n: u32, keys: seq<Address>)
    requires i <= n && SweepLoop(w, v, i, n, keys).Ok?
    ensures w.reserve <= SweepLoop(w, v, i, n, keys).value.reserve
    decreases n - i
  {
    if i < n {
      SweepLoopRaises(SweepOne(w, v, i, keys[0]).value, v, i + 1, n, keys[1..]);
    }
  }

  /** The reserve never falls, each record keeps its validator, and its epoch unless the
      keys name it and it takes the present one. */
  lemma {:induction false} RefreshLoopAnywhere(w: ListWork, keys: seq<Address>, epoch: u64)
    requires RefreshLoop(w, keys, epoch).Ok?
    ensures var w' := RefreshLoop(w, keys, epoch).value;
            && w.reserve <= w'.reserve
            && SameNames(w.list, w'.list)
            && (forall j :: 0 <= j < |w.list| ==>
                  || w'.list[j].lastUpdateEpoch == w.list[j].lastUpdateEpoch
                  || (w'.list[j].lastUpdateEpoch == epoch && Wallet(w.list[j].validator) in keys))
    decreases |keys|
  {
    if keys != [] {
      var k := FindVote(w.list, keys[0]).value;
      var n := w.list[k].stakeCount;
      SweepLoopRaises(Sweep(w.accounts, w.reserve, 0, 0), w.list[k].validator, 0, n, keys[1..]);
      var w1 := RefreshOne(w, k, keys[1..], epoch).value;
      RefreshLoopAnywhere(w1, keys[1 + n..], epoch);
      assert w1.list[k].validator == keys[0].key;
    }
  }

  // ---- UpdatePoolBalance

  function BalanceSum(list: seq<ValidatorStakeInfo>, n: nat): nat
    requires n <= |list|
  {
    if n == 0 then 0 else BalanceSum(list, n - 1) + list[n - 1].balance
  }

  lemma {:induction false} BalancesCovered(list: seq<ValidatorStakeInfo>, accounts: Accounts, n: nat)
    requires n <= |list| && Covered(list, accounts)
    ensures BalanceSum(list, n) <= ListedTo(list, accounts, n)
    ensures (forall k :: 0 <= k < n ==> list[k].balance == OfRecord(list[k], accounts)) ==>
              BalanceSum(list, n) == ListedTo(list, accounts, n)
  {
    if n > 0 {
      BalancesCovered(list, accounts, n - 1);
    }
  }

  lemma {:induction false} BalanceSumMono(list: seq<ValidatorStakeInfo>, m: nat, n: nat)
    requires m <= n <= |list|
    ensures BalanceSum(list, m) <= BalanceSum(list, n)
  {
    if m < n {
      BalanceSumMono(list, m, n - 1);
    }
  }

  lemma {:induction false} TotalLoopSums(list: seq<ValidatorStakeInfo>, i: nat, reserve: u64, total: u64, epoch: u64)
    requires i <= |list| && total == reserve + BalanceSum(list, i)
    requires reserve + BalanceSum(list, |list|) < U64_LIMIT
    ensures TotalLoop(list, i, total, epoch).Ok? <==> (forall k :: i <= k < |list| ==> list[k].lastUpdateEpoch >= epoch)
    ensures TotalLoop(list, i, total, epoch).Ok? ==>
              TotalLoop(list, i, total, epoch).value == reserve + BalanceSum(list, |list|)
    decreases |list| - i
  {
    if i < |list| && list[i].lastUpdateEpoch >= epoch {
      BalanceSumMono(list, i + 1, |list|);
      TotalLoopSums(list, i + 1, reserve, total + list[i].balance, epoch);
    }
  }

  /** A pool update commits exactly when every record is of this epoch; it then
      records reserve plus cached balances, without wrapping, as the stake. */
  lemma {:induction false} UpdatePoolBalanceKeeps(s: State)
    requires StakesOk(s) && ClockOk(s)
    ensures UpdatePoolBalance(s).Ok? <==>
              (forall k :: 0 <= k < |s.validators| ==> s.validators[k].lastUpdateEpoch == s.bank.epoch)
    ensures UpdatePoolBalance(s).Ok? ==>
              var s' := UpdatePoolBalance(s).value;
              && StakesOk(s') && Backed(s') && (Inv(s) ==> Inv(s'))
              && s'.pool.stakeTotal == s.bank.reserve + BalanceSum(s.validators, |s.validators|)
              && s'.pool.lastUpdateEpoch == s.bank.epoch
              && s' == s.(pool := s.pool.(stakeTotal := s'.pool.stakeTotal, lastUpdateEpoch := s'.pool.lastUpdateEpoch))
              && Capital(s') == Capital(s) && s'.bank.reserve == s.bank.reserve
  {
    BalancesCovered(s.validators, s.bank.accounts, |s.validators|);
    TotalLoopSums(s.validators, 0, s.bank.reserve, s.bank.reserve, s.bank.epoch);
  }

  /** Refreshing every validator and then the pool records the assets exactly. */
  lemma {:induction false} FullRefreshIsExact(s: State, keys: seq<Address>)
    requires StakesOk(s) && ClockOk(s) && UpdateListBalance(s, keys).Ok?
    requires forall k :: 0 <= k < |s.validators| ==> Wallet(s.validators[k].validator) in keys
    ensures var s1 := UpdateListBalance(s, keys).value;
            && UpdatePoolBalance(s1).Ok?
            && UpdatePoolBalance(s1).value.pool.stakeTotal == Assets(s)
  {
    var s1 := UpdateListBalance(s, keys).value;
    UpdateListBalanceKeeps(s, keys);
    RefreshLoopAnywhere(ListWork(s.validators, s.bank.accounts, s.bank.reserve), keys, s.bank.epoch);
    UpdatePoolBalanceKeeps(s1);
    BalancesCovered(s1.validators, s1.bank.accounts, |s1.validators|);
  }

  // ---- AddValidator and RemoveValidator

  lemma {:induction false} ListedPrefix(a: seq<ValidatorStakeInfo>, b: seq<ValidatorStakeInfo>, accounts: Accounts,
                                        n: nat)
    requires n <= |a| && n <= |b| && a[..n] == b[..n]
    ensures ListedTo(a, accounts, n) == ListedTo(b, accounts, n)
  {
    if n > 0 {
      assert a[n - 1] == a[..n][n - 1] == b[n - 1];
      assert a[..n - 1] == a[..n][..n - 1] == b[..n - 1];
      ListedPrefix(a, b, accounts, n - 1);
    }
  }

  lemma {:induction false} ListedRemove(list: seq<ValidatorStakeInfo>, accounts: Accounts, k: nat, n: nat)
    requires k < n <= |list|
    ensures ListedTo(list[..k] + list[k + 1..], accounts, n - 1) + OfRecord(list[k], accounts)
         == ListedTo(list, accounts, n)
  {
    var rest := list[..k] + list[k + 1..];
    if n == k + 1 {
      assert rest[..k] == list[..k];
      ListedPrefix(rest, list, accounts, k);
    } else {
      assert rest[n - 2] == list[n - 1];
      ListedRemove(list, accounts, k, n - 1);
    }
  }

  lemma {:induction false} CountOfAppended(list: seq<ValidatorStakeInfo>, r: ValidatorStakeInfo, v: Pubkey)
    requires r.stakeCount == 0
    ensures CountOf(list + [r], v) == CountOf(list, v)
  {
    if Find(list, v).Some? {
      assert (list + [r])[Find(list, v).value].validator == v;
    }
    if Find(list + [r], v).Some? {
      var k := Find(list + [r], v).value;
      assert k < |list| ==> list[k].validator == v;
    }
  }

  lemma {:induction false} AddValidatorKeeps(s: State, v: Pubkey)
    requires StakesOk(s) && AddValidator(s, v).Ok?
    ensures var s' := AddValidator(s, v).value;
            && StakesOk(s') && (Inv(s) ==> Inv(s'))
            && Assets(s') == Assets(s) && Capital(s') == Capital(s)
            && s.pool.lastUpdateEpoch >= s.bank.epoch
            && s' == s.(validators := s'.validators) && s.validators < s'.validators
            && |s'.validators| == |s.validators| + 1
            && s'.validators[|s.validators|] == ValidatorStakeInfo(v, 0, s.bank.epoch, 0)
  {
    var s' := AddValidator(s, v).value;
    var r := s'.validators[|s.validators|];
    assert s'.validators[..|s.validators|] == s.validators[..|s.validators|];
    ListedPrefix(s'.validators, s.validators, s.bank.accounts, |s.validators|);
    forall a | a in s.bank.accounts && s.bank.accounts[a].Stake?
      ensures a.index < CountOf(s'.validators, a.validator)
    {
      CountOfAppended(s.validators, r, a.validator);
    }
  }

  lemma {:induction false} CountOfRemoved(list: seq<ValidatorStakeInfo>, k: nat, v: Pubkey)
    requires Distinct(list) && k < |list| && list[k].stakeCount == 0
    ensures Distinct(list[..k] + list[k + 1..])
    ensures CountOf(list[..k] + list[k + 1..], v) == CountOf(list, v)
  {
    var rest := list[..k] + list[k + 1..];
    forall i, j | 0 <= i < j < |rest| ensures rest[i].validator != rest[j].validator {
      assert rest[i] == list[if i < k then i else i + 1];
      assert rest[j] == list[if j < k then j else j + 1];
    }
    if Find(rest, v).Some? {
      var i := Find(rest, v).value;
      var j := if i < k then i else i + 1;
      assert rest[i] == list[j];
      CountOfListed(list, j);
    } else {
      forall j | 0 <= j < |list| && j != k ensures list[j].validator != v {
        assert list[j] == rest[if j < k then j else j - 1];
      }
    }
  }

  lemma {:induction false} StakesWithout(list: seq<ValidatorStakeInfo>, accounts: Accounts, k: nat)
    requires Book(list, accounts) && Covered(list, accounts) && k < |list| && list[k].stakeCount == 0
    ensures var rest := list[..k] + list[k + 1..];
            && Book(rest, accounts) && Covered(rest, accounts)
            && Listed(rest, accounts) == Listed(list, accounts)
            && (forall j :: 0 <= j < |rest| ==> rest[j] in list)
  {
    var rest := list[..k] + list[k + 1..];
    ListedRemove(list, accounts, k, |list|);
    CountOfRemoved(list, k, list[k].validator);
    forall a | a in accounts && accounts[a].Stake? ensures a.index < CountOf(rest, a.validator) {
      CountOfRemoved(list, k, a.validator);
    }
    forall j | 0 <= j < |rest| ensures rest[j].balance <= OfRecord(rest[j], accounts) && rest[j] in list {
      assert rest[j] == list[if j < k then j else j + 1];
    }
  }

  /** Removing a validator never loses a stake account: one that may be removed has
      no stake account with lamports at any index. */
  lemma {:induction false} RemoveValidatorKeeps(s: State, v: Pubkey)
    requires StakesOk(s) && RemoveValidator(s, v).Ok?
    ensures var s' := RemoveValidator(s, v).value;
            && StakesOk(s') && (Inv(s) ==> Inv(s'))
            && Assets(s') == Assets(s) && Capital(s') == Capital(s)
            && s.pool.lastUpdateEpoch >= s.bank.epoch
    ensures forall i: nat :: At(s.bank.accounts, StakeKey(v, i)).System?
  {
    StakesWithout(s.validators, s.bank.accounts, Find(s.validators, v).value);
  }

  /** The one record of the validator goes, the others remain in order, and nothing else
      changes. */
  lemma {:induction false} RemoveValidatorExactly(s: State, v: Pubkey) returns (k: nat)
    requires Distinct(s.validators) && RemoveValidator(s, v).Ok?
    ensures var s' := RemoveValidator(s, v).value;
            && RemovedAt(s.validators, v, k, s'.validators)
            && Find(s'.validators, v).None?
            && s' == s.(validators := s'.validators)
  {
    k := Find(s.validators, v).value;
    var list' := RemoveValidator(s, v).value.validators;
    forall j | 0 <= j < |list'| ensures list'[j].validator != v {
      assert list'[j] == s.validators[if j < k then j else j + 1];
    }
  }

  /** Exactly the record at `k`, of validator `v`, is gone. */
  ghost predicate RemovedAt(list: seq<ValidatorStakeInfo>, v: Pubkey, k: nat, list': seq<ValidatorStakeInfo>) {
    && k < |list| && list[k].validator == v && list[k].stakeCount == 0
    && |list'| == |list| - 1
    && (forall j :: 0 <= j < |list'| ==> list'[j] == list[if j < k then j else j + 1])
  }

  /** When the list may change: in a pool up to date, with room for a validator not yet
      listed, or with a listed validator none of whose accounts are counted. */
  lemma {:induction false} ListChanges(s: State, v: Pubkey)
    ensures AddValidator(s, v).Ok? <==>
              && s.pool.lastUpdateEpoch >= s.bank.epoch && |s.validators| < MAX_VALIDATORS
              && (forall k :: 0 <= k < |s.validators| ==> s.validators[k].validator != v)
    ensures Distinct(s.validators) ==>
              (RemoveValidator(s, v).Ok? <==>
                 && s.pool.lastUpdateEpoch >= s.bank.epoch
                 && exists k :: 0 <= k < |s.validators| && s.validators[k].validator == v
                                && s.validators[k].stakeCount == 0)
  {
    if Distinct(s.validators) && RemoveValidator(s, v).Ok? {
      assert s.validators[Find(s.validators, v).value].stakeCount == 0;
    }
  }
}
