# Tenderize stake pool: a Dafny model

Tenderize is a liquid-staking pool on Solana. Users exchange lamports for pool tokens at the rate
`stake_total / pool_total`. The lamports sit in one reserve account and in numbered stake accounts of
each listed validator. The program keeps a cached balance per validator and a queue of delayed
withdrawals whose tokens wait in a credit reserve. An off-chain client plans delegations and merges,
encodes the batches, and reads the accounts back.

This project models the on-chain program (`program/src`) and the client's planner and codecs
(`experiment/tenderize.ts`) and proves what holds between them. Running
`dafny verify dfyconfig.toml` checks everything.

## How it is laid out

| file | what it holds |
|---|---|
| `machine.dfy`, `data.dfy` | fixed-width integers that wrap, the stored records, error codes |
| `pricing.dfy` | the exchange arithmetic |
| `contents.dfy` | what stake batches and list updates leave in each account, in numbers |
| `ledger.dfy`, `invariants.dfy` | reserve, stake accounts, tokens; sums over them; what holds between transactions |
| `exchange.dfy`, `credits.dfy`, `staking.dfy`, `upkeep.dfy` | each handler as a function from state to result, and what it keeps |
| `runs.dfy`, `freshness.dfy` | any interleaving of handlers and the rest of the chain; theorems over whole runs |
| `counterexamples.dfy` | reachable runs in which each excluded case happens |
| `processor.dfy` | the program as a class: handlers that update it in place, and its entry point |
| `planner.dfy`, `outcomes.dfy` | the client's planners, and exactly when the program accepts their plans |
| `payments.dfy`, `refresh.dfy` | the client's payment batches and its refresh, and what they leave behind |
| `stakecurve.dfy` | the stake warm-up and cool-down curve |
| `wire.dfy`, `storage.dfy`, `instructions.dfy` | account and instruction bytes, in both languages |
| `endtoend.dfy` | from a plan through its bytes to the program's state |

## How the chain is modelled

- A handler is one atomic step. It either commits or, like every failed transaction, changes nothing.
- Handlers run interleaved with anything the rest of the chain may do: epochs pass, lamports are sent to
  the reserve or to a stake address, stakes earn rewards and change state, holders burn tokens or send
  them to the credit reserve (`Runs.Environment`).
- Calls into the system, token and stake programs are their balance changes. Where such a call can fail
  for a reason outside the model, the failed transaction is a step that changes nothing, which every
  theorem over runs covers because it holds for runs with that step removed.
- Integer `+=` and `-=` on-chain wrap around, as in a release build without overflow checks.
- A stake account's address is an injective function of (validator, index). A drained stake account is
  purged and becomes a system account again.
- All token accounts of users and of the fee are one number, `circulating`; the credit reserve is
  `escrow`; their sum is the mint's supply. User accounts are distinct from the credit reserve and the
  reserve, and the mint handed in is the pool's.
- `outside` is every lamport neither in the reserve nor in a counted stake account. The sum of all
  lamports fits in 64 bits, as the runtime's own total does.
- Stake lamports grow by rewards and shrink only through these steps: there is no slashing.

## What depends on a condition, and what does not

The credit queue, the freshness of the price and the reserve floor hold over every run, whatever wraps. The
following laws are false of the code as written, and each is proved under the condition it needs.

- No stranded stake, covered balances and conservation of lamports need that no delegation and no split
  names index 2^32 - 1, where the count wraps to zero (`Counterexamples.CountWraps`).
- A supply within `pool_total` needs that no deposit wraps `pool_total`. It cannot while nobody burns tokens
  directly (`Runs.SupplyIsExact`). It can otherwise (`Counterexamples.WrappingDepositBreaksLaws`), after
  the cached balance went stale (`Counterexamples.StaleCacheCollapsesPrice`). A profit from trading takes a
  deposit that wraps; `Trading.NoProfitWhenBounded` gives conditions to check beforehand.
- Backing needs both, and that a payment batch hands out no more than `stake_total`: the batch lowers the
  supply after each creditor but the stake only at the end (`Counterexamples.BatchOverdraws`). A pool
  refresh restores it (`Runs.RefreshRestoresBacking`).
- A payment batch keeps every unpaid creditor unless it goes through all accounts passed while creditors
  remain. Then exactly the next creditor is dropped (`Counterexamples.CreditorsLost`), so the client, which
  pays in batches of 30, loses every 31st (`PaymentOutcomes.PayAllOutcome`).
- An unstake entry keeps its meaning, and the keys pushed for it are all used, except for the two kinds of
  entry named by `Instructions.UnstakeMeaningKept` and `Instructions.UnstakeKeysExact`.
- The effective stake rises up to deactivation exactly when no addition of the warm-up loop wraps
  (`StakeCurve.SaturatedShareFalls`).

`Runs.StepGuarantees` states for every step what it keeps under which condition. `Runs.UnsafeBreaks` shows
that each of the first three conditions is exact for its part.

Where the source disagrees with itself the model follows the code. A comment says that creating the split
account sends nothing, but it sends the account's rent (program/src/processor.rs:2075-2077). The client's
delegation minimum is ten times the program's (experiment/tenderize.ts:20, program/src/state.rs:169). The
client means to reuse the index of an account that reverted to the system program, but compares key objects
and so finds free only an address with no account (experiment/tenderize.ts:774).

## Model

| member | source | states |
|---|---|---|
| Data.Find | program/src/state.rs:222-226 | the first record of a validator, or none exists |
| Data.FindCredit | program/src/state.rs:391-393 | the first credit of a target, or none exists |
| Pricing.MulDivFails | program/src/state.rs:65-72 | 128-bit pricing fails exactly on a zero divisor or a quotient over 64 bits |
| Pricing.MulDivFloor | program/src/state.rs:74-81 | a successful price is the exact floor |
| Pricing.MoreStakePaysMore | program/src/state.rs:74-81 | the same tokens are worth no less when more stake backs the same supply |
| Pricing.ShareWithinStake | program/src/state.rs:74-81 | any part of a non-empty supply has a price, at most the whole stake |
| Pricing.FeeWithinAmount | program/src/state.rs:83-93 | a fee ratio of at most one always has a fee: the exact part of the minted amount, rounded down, and nothing without a denominator |
| Pricing.DepositKeepsPrice | program/src/state.rs:58-72 | a deposit mints exactly its worth, rounded down, and one token a lamport into an empty pool; stake per token does not fall |
| Pricing.WithdrawKeepsPrice | program/src/state.rs:74-81 | redeemed tokens are worth exactly their share of the stake, rounded down; stake per token does not fall |
| Exchange.DepositKeeps | program/src/processor.rs:872-1037 | a committed deposit does exactly what Exchange.Deposited says, and keeps the invariant, and the supply within pool_total, if and only if pool_total does not wrap; either way lamports are conserved and the stake stays backed |
| Exchange.ExactSupplyNeverWraps | program/src/processor.rs:1015-1037 | while supply equals pool_total the mint refuses any deposit that would wrap it, and equality is kept |
| Exchange.DepositSupply | program/src/processor.rs:1015-1037 | in any state a deposit that does not wrap pool_total keeps a covered supply covered, and one that does leaves it uncovered |
| Exchange.WithdrawSupply | program/src/processor.rs:1129-1161 | in any state with a covered supply a withdrawal underflows neither total, and takes the same tokens off supply and pool_total |
| Exchange.WithdrawKeeps | program/src/processor.rs:1112-1161 | a committed withdrawal does exactly what Exchange.Withdrawn says and keeps every invariant; neither total underflows, lamports are conserved, the floor holds |
| Exchange.PricingFailures | program/src/processor.rs:877-887 | with a covered supply no withdrawal of tokens that exist fails on pricing; with a fee of at most one a deposit does only when its quotient needs more than 64 bits |
| Exchange.DepositExactly | program/src/processor.rs:872-1037 | from any state a committed deposit moves the amount into the reserve and mints exactly its worth, m with m * stake_total <= amount * pool_total < (m + 1) * stake_total, or one token a lamport without stake, and changes nothing else; with a fee of at most one it commits if and only if the user has the lamports, the reserve reaches its minimum and the results fit in 64 bits |
| Exchange.WithdrawExactly | program/src/processor.rs:1112-1161 | from any state a committed withdrawal burns the tokens and pays exactly their worth, rounded down, and changes nothing else; it commits if and only if the tokens are there and paying leaves the reserve its floor and its rent |
| Exchange.ExchangeKeepsPrice | program/src/processor.rs:1036-1037 | the share price never falls through a deposit that wraps neither total, in any state, nor through a withdrawal from a covered supply |
| Trading.NoProfitFromRounding | program/src/state.rs:58-93 | from any state at all, a finite sequence of deposits and withdrawals takes out more than it put in only if one of its deposits wraps pool_total; zero stake, zero supply, overdrawn stake and fee included, even for the fee's owner |
| Trading.DoAllStaysFair | program/src/processor.rs:1112-1114 | at every point of such a sequence the trader's tokens are worth at most the lamports still in from them |
| Trading.NoProfitWhenBounded | program/src/state.rs:58-93 | a condition to check before trading: from a state whose supply is pool_total, or whose backed tokens are worth a lamport or more or could not number 2^64 for all lamports there are, no sequence of trades makes a profit |
| Trading.DepositCannotWrap | program/src/processor.rs:1036-1037 | under that condition no deposit wraps pool_total, and the condition holds again after it |
| Trading.KeptExactly | program/src/state.rs:83-93 | a depositor keeps all but exactly the fee ratio of the minted tokens, rounded down |
| Credits.CreditKeeps | program/src/processor.rs:1243-1291 | with the queue in order exactly one record, of the target and its cancel authority, grows by the amount without wrapping; exactly the amount moves from circulation into escrow; nothing else changes; the whole invariant is kept if it held |
| Credits.CreditCommits | program/src/processor.rs:1243-1291 | a credit commits if and only if the amount is positive, there and fits, the target is a system account, and its record has this authority or there is room for a new one |
| Credits.EnqueuedOk | program/src/processor.rs:1243-1269 | crediting keeps the queue bounded, distinct, positive and covered once the amount is in escrow, and a new record carries the authority passed |
| Credits.UncreditKeeps | program/src/processor.rs:1360-1417 | with the queue in order exactly the amount leaves the queue, and moves from escrow, which never lacks it, back into circulation; a full uncredit removes one record, a partial one shrinks it; nothing else changes; the whole invariant is kept if it held |
| Credits.UncreditCommits | program/src/processor.rs:1360-1417 | with the queue in order an uncredit commits if and only if the record's authority signed and the record holds the amount |
| Credits.RetainRemovesOne | program/src/processor.rs:1380-1383 | with distinct targets retain removes exactly the one record |
| Credits.PayLoopShape | program/src/processor.rs:2226-2296 | from any state the payment loop splits the queue into a paid and skipped prefix and an untouched rest, moves exactly what the paid part comes to, and stops early only for a usable account owed more than is left |
| Credits.PayLoopQueued | program/src/processor.rs:2221-2296 | in any state the payment loop keeps the queue distinct, bounded, positive and covered by escrow |
| Credits.PayCreditorsAnywhere | program/src/processor.rs:2216-2301 | in any state, overdrawn or not, a committed batch keeps the queue in order, takes the same tokens off supply and pool_total, moves lamports only out of the reserve, and leaves it its minimum or what it had |
| Credits.QueueDiscipline | program/src/processor.rs:2221-2296 | of every committed batch from any state: it goes exactly as far as accounts, queue and spendable reserve allow; the usable accounts of that prefix are paid what it costs, their tokens leave escrow and pool_total, the lamports leave reserve and stake_total; the untouched rest and then the skipped ones remain in that order; nobody is lost unless accounts run out first, and then exactly one record; nothing else changes |
| Credits.PaymentsExactly | program/src/processor.rs:2248-2300 | each creditor of a batch is paid exactly tokens times stake over the supply then left, rounded down |
| Credits.PayCommits | program/src/processor.rs:2212-2296 | in a pool in order a batch for the first creditors of the queue commits if and only if the pool is up to date, unless a sum of lamports needs more than 64 bits |
| Credits.PayCreditorsKeeps | program/src/processor.rs:2216-2301 | with stakes in order a committed batch leaves the stake backed, and the invariant kept, if and only if it hands out at most stake_total; lamports are conserved either way |
| Credits.OverdrawExactly | program/src/processor.rs:2248-2300 | stated on the inputs: a backed stake stays backed if and only if every number of creditors the spendable reserve can pay is one that stake_total can pay |
| Credits.SpendableReserveSuffices | program/src/processor.rs:2216-2220 | in any state whose spendable reserve is within stake_total no batch can overdraw |
| Credits.PayCreditorsSpends | program/src/processor.rs:2253-2257 | in any state a batch leaves the reserve its minimum or what it had, even if the running sum wraps |
| Credits.PayNeverLacksTokens | program/src/processor.rs:2248-2268 | with the queue in order the burn never lacks escrowed tokens; with the supply covered too, pricing never fails |
| Credits.BatchLosesNobody | program/src/processor.rs:2248-2291 | with the supply covered each creditor of a batch gets at least what withdrawing in turn would pay, the first exactly that |
| Credits.BatchBeatsSequential | program/src/processor.rs:2290-2300 | the same for any list of creditors and any two stakes in order |
| Credits.OnePaymentKeepsPrice | program/src/processor.rs:2248-2300 | with the supply covered paying one creditor keeps the share price and never overdraws |
| StakingProofs.DelegateReserveKeeps | program/src/processor.rs:1691-1778 | with stakes in order a delegation batch that names no index 2^32 - 1 keeps them in order, the assets exactly and the reserve at its minimum or what it had, and the whole invariant if it held |
| StakingProofs.DelegateReserveSpends | program/src/processor.rs:1691-1708 | in any state the reserve keeps its minimum or what it had, even if the running sum wraps |
| StakingContents.DelegateReserveExactly | program/src/processor.rs:1691-1778 | from any state a committed batch leaves each account what it held plus exactly what its entries send, all but the rent delegated, takes that sum from the reserve, leaves every other account alone, and stores the balances grown by what each validator was sent only if a count changed |
| StakingContents.DelegateOneRecord | program/src/processor.rs:1552-1607 | one delegation adds its amount to the cached balance of its validator and counts the account if it is the next one; no other record changes |
| StakingContents.MergeOneContents | program/src/processor.rs:1853-1940 | a committed pair leaves both balances and both stakes in the main account and nothing in the additional one, which is no longer counted if it was the last; over different credits nothing moves |
| StakingContents.UnstakeExactly | program/src/processor.rs:2009-2128 | from any state a committed batch of distinct accounts leaves each source its lamports and stake less the amount, each split account its rent plus the amount with the amount as stake, and every other account alone; without a split nothing moves; the owner pays exactly the rents, and counts change only of validators split |
| StakingContents.UnstakeOneCommits | program/src/processor.rs:2009-2095 | an entry commits if and only if its source is counted and delegated and, if it splits, the address is empty, within the count or next, and amount and rent are at hand |
| StakingProofs.CommitKeeps | program/src/processor.rs:1776-1778 | not storing the list when no count changed keeps cached balances covered and counts right, and the whole invariant if it held |
| StakingProofs.MergeStakesKeeps | program/src/processor.rs:1837-1945 | with stakes in order a merge batch keeps them in order, the assets and the reserve, and the whole invariant if it held |
| StakingProofs.UnstakeKeeps | program/src/processor.rs:2009-2128 | with stakes in order an unstake batch that splits into no index 2^32 - 1 keeps them in order and the reserve, never lowers the assets, leaves distinct accounts exactly what StakingContents.SplitOff says, and keeps the whole invariant if it held |
| StakingProofs.DelegateLoopAtLimit | program/src/processor.rs:1764-1767 | a batch that gets through its loop and names index 2^32 - 1 leaves a stake account beyond its count |
| StakingProofs.UnstakeLoopAtLimit | program/src/processor.rs:2048-2051 | so does an unstake batch that splits into that index |
| UpkeepProofs.UpdateListBalanceKeeps | program/src/processor.rs:573-707 | with stakes in order every counted account of a named validator is left exactly its rent and stake, the reserve grows by exactly what the accounts lose, each named validator gets an exact balance of this epoch, and all others are untouched |
| UpkeepProofs.RefreshLoopAnywhere | program/src/processor.rs:573-703 | in any state a list update never lowers the reserve, and each record keeps its validator, and its epoch unless it is named and takes the present one |
| UpkeepContents.UpdateListExactly | program/src/processor.rs:573-707 | a committed update leaves each counted account of a named validator with exactly its rent and its stake, an initialized one with its rent, an uninitialized or system one with nothing; no other account is touched; each named record counts up to an account that held a stake, and gives up none that still does |
| UpkeepProofs.UpdatePoolBalanceKeeps | program/src/processor.rs:765-775 | with stakes and clock in order it commits exactly when every record is of this epoch, records reserve plus cached balances without wrapping, and the stake is then backed whether or not it was before |
| UpkeepProofs.FullRefreshIsExact | program/src/processor.rs:765-775 | after refreshing every validator a pool update records the assets exactly |
| UpkeepProofs.AddValidatorKeeps | program/src/processor.rs:407-439 | with stakes in order adding a validator appends exactly one record, empty and of this epoch, keeps stakes in order and the assets, and happens only when the pool is up to date |
| UpkeepProofs.RemoveValidatorKeeps | program/src/processor.rs:481-510 | with stakes in order a validator that may be removed has no stake account at any index, so none is lost |
| UpkeepProofs.RemoveValidatorExactly | program/src/processor.rs:497-509 | exactly the one record of the validator is gone, the others remain in order, nothing else changes |
| UpkeepProofs.ListChanges | program/src/processor.rs:407-509 | a validator is added if and only if the pool is up to date, there is room and it is not listed; removed if and only if the pool is up to date and its record counts no accounts |
| Runs.InitOk | program/src/processor.rs:205-371 | a freshly initialized pool is in order, its supply exact and its epoch the present one |
| Runs.InitializeExactly | program/src/processor.rs:205-371 | a pool is initialized if and only if it is blank, the fee is at most one and the mint has no supply; it then has that fee, the present epoch and empty lists, and nothing else changes |
| Runs.StepGuarantees | program/src/processor.rs:2307-2379 | every step from every state: queue, clock and fee stay in order, the reserve floor holds; stakes stay in order and lamports are conserved unless a stake count wraps; the supply stays covered unless a deposit wraps, and exact unless tokens are burnt; the whole invariant is kept if neither happens and no payment overdraws |
| Runs.FloorStep | program/src/processor.rs:780-785 | no step from any state takes the reserve below MIN_RESERVE_BALANCE, and a deposit lifts it there |
| Runs.NextKeeps | program/src/processor.rs:2307-2379 | every safe step of any kind keeps the whole invariant |
| Runs.EnvironmentKeeps | program/src/processor.rs:516-710 | nothing the rest of the chain does puts stakes, or the whole invariant, out of order, and only rewards add lamports |
| Runs.RunKeeps | program/src/processor.rs:2307-2379 | every safe run from a pool in order, however long, ends in order |
| Runs.QueueInOrder | program/src/processor.rs:1243-1291 | in every run, under no condition, the credit queue is distinct, bounded, positive and covered by escrow, and the supply fits in 64 bits |
| Runs.ClockInOrder | program/src/processor.rs:765-775 | in every run, under no condition, neither pool nor record is ahead of the clock and the fee stays at most one |
| Runs.SupplyCovered | program/src/processor.rs:1015-1037 | in every run in which no deposit wraps, the supply is within pool_total |
| Runs.UnsafeBreaks | program/src/processor.rs:1036-1037 | each condition is exact for its part whenever stakes are in order: a committed deposit that wraps leaves the supply uncovered, a payment that overdraws the stake unbacked, an index 2^32 - 1 a stake account stranded |
| Runs.EveryRunIsInOrder | program/src/processor.rs:573-707 | in every state of every run the queue is bounded, distinct and covered; no stake is stranded and cached balances are covered if no stake count wrapped; the supply is within pool_total if no deposit wrapped; the stake is backed if neither happened and no payment overdrew |
| Runs.RefreshRestoresBacking | program/src/processor.rs:765-775 | a committed pool refresh makes up for all overdrawn payments before it: from then on the pool is in order for as long as payments are safe |
| Runs.NoProfitInAnyRun | program/src/state.rs:58-93 | in every state of every run without direct burns no sequence of trades makes a profit, whatever payments overdrew and counts wrapped |
| Runs.TokensNeverLack | program/src/processor.rs:2259-2268 | in every state of every run, under no condition, neither a payment nor an uncredit fails for lack of escrowed tokens |
| Runs.InitializedOnce | program/src/processor.rs:205-209 | after any run the pool refuses to be initialized again |
| Runs.ReserveFloor | program/src/processor.rs:1116-1127 | once a deposit has committed the reserve never falls below MIN_RESERVE_BALANCE, from any start and whatever steps follow |
| Runs.LamportsConserved | program/src/processor.rs:1146-1158 | over every run in which no stake count wraps, stakes stay in order and lamports change only by rewards |
| Runs.SupplyIsExact | program/src/processor.rs:331-333 | over every run without direct burns supply equals pool_total and no deposit wraps it, whatever else happens |
| Freshness.PriceIsFresh | program/src/processor.rs:2212-2214 | in every run payments and list changes commit only in the initialization epoch or after a pool refresh in the same epoch, before which every listed validator was refreshed or added in that epoch |
| Freshness.RecordEpochOrigin | program/src/processor.rs:696-698 | in every run every record was refreshed or added in the epoch it carries |
| Freshness.PoolEpochOrigin | program/src/processor.rs:773-774 | in every run the pool's update epoch is that of its initialization or of an earlier committed refresh that found every record current |
| Counterexamples.FreshExists | program/src/processor.rs:205-371 | the initialized, empty pool from which all these runs start exists |
| Counterexamples.BatchOverdraws | program/src/processor.rs:2290-2300 | a reachable run in which a two-creditor batch hands out 15 million of a recorded 10 million |
| Counterexamples.NoAccountsLosesHead | program/src/processor.rs:2227-2229 | in any up-to-date pool a payment called with no accounts commits and drops the first creditor |
| Counterexamples.CreditorsLost | program/src/processor.rs:2227-2229 | a reachable run in which two such calls empty the queue while ten million tokens stay in escrow |
| Counterexamples.StaleCacheCollapsesPrice | program/src/processor.rs:1764-1778 | a reachable run in which an unstored balance makes a same-epoch refresh record almost nothing |
| Counterexamples.WrappingDepositBreaksLaws | program/src/processor.rs:1036-1037 | from there a deposit wraps pool_total: the supply exceeds it and the no-profit law fails |
| Counterexamples.CountWraps | program/src/processor.rs:1764-1767 | a reachable run, 2^32 - 1 delegations long, after which one more delegation or a split commits, the count is zero and stakes are stranded |
| Processor.StakePoolProgram.ProcessInitialize | program/src/processor.rs:205-371 | a blank pool that accepts initialization is in order with an exact supply, carries the fee and the present epoch and has empty lists; an initialized one refuses |
| Processor.StakePoolProgram.ProcessDeposit | program/src/processor.rs:788-1041 | the object changes exactly as Exchange.Deposited says: the amount is in the reserve and its worth, rounded down, is minted; it stays in order unless pool_total wraps, and the share price does not fall unless a total wraps |
| Processor.StakePoolProgram.ProcessWithdraw | program/src/processor.rs:1044-1165 | the object changes exactly as Exchange.Withdrawn says: the tokens are gone and their worth, rounded down, has left the reserve; it stays in order and, its supply being covered, the share price does not fall |
| Processor.StakePoolProgram.ProcessCredit | program/src/processor.rs:1168-1296 | the object stays in order and, its queue being so, exactly the record of target and authority grows by the amount, which moves into escrow |
| Processor.StakePoolProgram.ProcessUncredit | program/src/processor.rs:1299-1422 | the object stays in order and, its queue being so, exactly the amount leaves the queue and moves from escrow into circulation, which never fails |
| Processor.PayQueue | program/src/processor.rs:2220-2296 | the payment loop agrees with Credits.PayLoop |
| Processor.StakePoolProgram.ProcessPayCreditors | program/src/processor.rs:2134-2304 | the object stays in order unless the batch overdraws; from any state the queue is treated as Credits.Disciplined says and exactly what the paid prefix costs leaves reserve and escrow; with the queue in order it never fails for lack of tokens |
| Processor.StakePoolProgram.ProcessDelegateReserve | program/src/processor.rs:1610-1781 | the batch loop with its key cursor leaves each account exactly what was sent on top of what it held, and the reserve exactly that much less; the object stays in order unless a count wraps |
| Processor.StakePoolProgram.ProcessMergeStakes | program/src/processor.rs:1784-1948 | the batch loop with its key cursor agrees with Staking.MergeStakes and keeps the object in order |
| Processor.StakePoolProgram.ProcessUnstake | program/src/processor.rs:1951-2131 | the loop with its variable key cursor leaves distinct accounts exactly what StakingContents.SplitOff says; the object stays in order unless a count wraps |
| Processor.SweepValidator | program/src/processor.rs:581-694 | sweeping one validator leaves each of its accounts exactly its rent and stake, moves what they lose to the reserve, sums what they keep and counts up to the last live one |
| Processor.RefreshAll | program/src/processor.rs:573-703 | the nested cursor loop over vote and stake accounts agrees with Upkeep.RefreshLoop |
| Processor.StakePoolProgram.ProcessUpdateListBalance | program/src/processor.rs:516-710 | the object stays in order, every counted account of a named validator is left exactly its rent and stake, and every validator named has an exact balance of this epoch |
| Processor.StakePoolProgram.ProcessUpdatePoolBalance | program/src/processor.rs:713-778 | the summing loop leaves the stake backed even where it was not |
| Processor.StakePoolProgram.ProcessAddValidator | program/src/processor.rs:375-442 | the object stays in order, no lamport moves and exactly one empty record of this epoch is appended |
| Processor.StakePoolProgram.ProcessRemoveValidator | program/src/processor.rs:445-513 | the object stays in order, exactly the one record is gone and the validator had no stake account at any index |
| Processor.StakePoolProgram.ProcessSetOwner | program/src/processor.rs:1425-1460 | the pool has the new owner and fee account, all else is as before, and the object stays in order |
| Processor.StakePoolProgram.Process | program/src/processor.rs:2307-2379 | whatever bytes and accounts it is given, an initialized pool in order stays in order with its lamports conserved unless a deposit wraps, a payment overdraws or a stake count wraps, and the reserve never falls below its floor |
| Planner.StakeIndex | experiment/tenderize.ts:734-777 | the first wholly activating stake, else the last free index, else one past the counted ones |
| Planner.RoomForAll | experiment/tenderize.ts:704-709 | what the validators lack to the rounded-up even split is never less than the total to hand out |
| Planner.TargetExactly | experiment/tenderize.ts:704-709 | the target is the even share of all balances and the total, rounded up |
| Planner.PlanDelegation | experiment/tenderize.ts:695-794 | with any validator listed, any total of at least the minimum is handed out in full, so the final error for an amount left over is unreachable; all funded validators but the last end on target, the last below target plus the minimum; those passed over are at target |
| Planner.SmallAmounts | experiment/tenderize.ts:722-732 | an amount is under the planner's minimum exactly when its validator, not the last funded, was that close to target |
| Planner.ActiveIndices | experiment/tenderize.ts:892-904 | exactly the active indices, ascending |
| Planner.PairUp | experiment/tenderize.ts:905-911 | the backward loop yields the pairs of Planner.Pairs |
| Planner.PlanMerges | experiment/tenderize.ts:884-912 | the pairs are, validator by validator, every later active index merged into the first, last index first |
| Planner.MergePlanExactly | experiment/tenderize.ts:890-912 | the plan holds every later active index of every validator paired with the first, and no more pairs than that |
| Planner.PairsExactly | experiment/tenderize.ts:905-911 | the pairs of a validator are its active indices from the last down to the second, each with the first |
| PlannerProofs.MergesAccepted | program/src/processor.rs:1846-1851 | any plan of counted pairs, each validator's last index first, passes the index checks at every step |
| PlannerProofs.MergePlanIsMergeable | experiment/tenderize.ts:890-912 | the merge plan for a snapshot names counted pairs, each validator's last index first |
| PlannerProofs.DelegationsAccepted | program/src/processor.rs:1710-1712 | any plan of distinct listed validators with an index within the count, or the next, passes the index checks at every step |
| PlannerProofs.PlanIsPlannable | experiment/tenderize.ts:712-790 | a finished delegation plan names distinct listed validators, each at an index within its count or the next |
| PlanOutcomes.DelegateReserveBatchAccepted | experiment/tenderize.ts:796-800 | sent in chunks of four, a plan made from the list as it stands goes through if and only if its total is within the spendable reserve and every account takes its part: an existing stake that the stake program, going by its activation, lets be delegated again, or a new one at an empty address with at least the program's minimum; it is then delivered in full, account by account, and otherwise refused over what accounts hold only |
| PlanOutcomes.MergeAllStakesAccepted | experiment/tenderize.ts:914-918 | sent in chunks of four the merge plan goes through if and only if all planned accounts hold stakes whose states and activation the stake program joins, or which are skipped over different credits, and what each main account ends up with fits in 64 bits; then each main account holds what it had and absorbed, absorbed ones are gone and others untouched; otherwise it is refused over stake states only |
| PlanOutcomes.DelegationsCommit | program/src/processor.rs:1691-1769 | the same condition, refusals by the stake program included, for any plan of distinct listed validators and acceptable indices |
| PlanOutcomes.MergesCommit | program/src/processor.rs:1837-1940 | the same condition, refusals by the stake program included, for any plan of counted pairs in which no additional account is named twice or is a main one |
| PaymentOutcomes.PayKeys | experiment/tenderize.ts:1109-1114 | the accounts passed are those of the first maxCount creditors, of all if it is not positive |
| PaymentOutcomes.ClientBatchOutcome | experiment/tenderize.ts:1086-1121 | from any state a batch limited to fewer creditors than wait loses exactly the first one past the limit whenever the reserve can pay everybody passed, and nobody otherwise |
| PaymentOutcomes.PayAllCreditors | experiment/tenderize.ts:1148-1158 | the repeated batches come to an end and do what PaymentOutcomes.PayAll says |
| PaymentOutcomes.PayAllOutcome | experiment/tenderize.ts:1148-1158 | with usable accounts and enough reserve the queue is emptied and a queue of n loses exactly every 31st creditor, n / 31 rounded down; their tokens stay in escrow |
| RefreshOutcomes.RecordKeys | experiment/tenderize.ts:1204-1219 | the keys of a validator are its vote account and its counted stake accounts in order |
| RefreshOutcomes.UpdatePoolOutcome | experiment/tenderize.ts:1267-1278 | the client's refresh, one transaction a validator and then the pool, goes through if and only if every counted account is no rewards pool and holds what it must keep; it then records the assets exactly and leaves the stake backed |
| EndToEnd.DelegateReserveBatchOnChain | experiment/tenderize.ts:695-801 | the encoded bytes of a delegation plan, decoded and run by the program, commit under exactly that condition, refusals by the stake program included |
| EndToEnd.MergeAllStakesOnChain | experiment/tenderize.ts:884-919 | so do those of the merge plan, refusals by the stake program included |
| EndToEnd.DelegateWireExact | program/src/instruction.rs:291-311 | sending any delegation plan as bytes has the same outcome as handing the program its entries |
| EndToEnd.MergeWireExact | program/src/instruction.rs:312-331 | sending any merge plan as bytes has the same outcome as handing the program its pairs |
| EndToEnd.SinglesOnChain | experiment/tenderize.ts:529-583 | the bytes of each of the client's other instructions make the program take the step of that name with that amount, a negative credit being an uncredit |
| StakeCurve.StakeParts | program/src/stake.rs:226-306 | effective plus activating never exceeds the delegation, deactivating never exceeds effective; StakeCurve.RisesBy, FallsBy and PartsExactly give their values |
| StakeCurve.RisesBy | program/src/stake.rs:343-389 | for any history, from nothing at activation each epoch adds the share of what is still to come, at least one lamport, of that epoch's activating and effective cluster stake, until the delegation is reached or the history ends; without a history all is effective at once |
| StakeCurve.FallsBy | program/src/stake.rs:258-305 | for any history, from deactivation on each epoch takes the share of what is left, at least one lamport, of that epoch's deactivating and effective cluster stake, until nothing is left or the history ends; without a history nothing is effective |
| StakeCurve.PartsExactly | program/src/stake.rs:226-306 | before activation nothing; at activation all, then what is not yet effective, is activating; from deactivation on what is effective is deactivating |
| StakeCurve.SpecialParts | program/src/stake.rs:309-330 | a stake there from the start is effective until deactivated; with the fix one deactivated as it was activated never is; the fix changes nothing else |
| StakeCurve.CoolsToZero | program/src/stake.rs:274-284 | while the cool-down lasts at least one lamport goes each epoch, so nothing is left after as many epochs as lamports |
| StakeCurve.FallsByAQuarter | program/src/stake.rs:266-284 | with the source's entitlement at its default rate an epoch takes at most a quarter of the cluster's stake from a stake that pending stake includes, and at least a quarter of the stake when no more is pending than effective |
| StakeCurve.ComputeStakeAndActivating | program/src/stake.rs:309-394 | the warm-up loop ends within the epoch distance and computes StakeAndActivating |
| StakeCurve.ComputeStakeParts | program/src/stake.rs:226-306 | the cool-down loop ends within the epoch distance, computes StakeParts, and all that is effective after deactivation is deactivating |
| StakeCurve.FallsAfterDeactivation | program/src/stake.rs:258-305 | for any history, activation being before deactivation, effective stake never rises after deactivation |
| StakeCurve.WrapFalls | program/src/stake.rs:366-369 | where an addition of the warm-up wraps, effective stake falls from that epoch to the next |
| StakeCurve.RisesIffSteady | program/src/stake.rs:343-389 | activation being before deactivation, effective stake never falls up to it if and only if no addition of the warm-up wraps |
| StakeCurve.SmallSharesAreSteady | program/src/stake.rs:366-369 | shares that fit beside the delegation in 64 bits in every epoch of the history never wrap |
| StakeCurve.IncludedStakesAreSteady | program/src/stake.rs:358-367 | with the source's entitlement at its default rate effective stake never falls up to deactivation, if pending stake includes the delegation and a quarter of the cluster's stake fits beside it |
| StakeCurve.SaturatedShareFalls | program/src/stake.rs:366-369 | with the source's entitlement at its default rate, a history in which it saturates makes effective stake fall from 5 to 4 while warming up |
| Storage.StoreValidators | program/src/state.rs:270-287 | storing fails exactly on a short account or too long a list and then changes nothing; otherwise bytes past the last record are untouched and the client reads the list back, as does the program unless the version is 0, which reads as uninitialized |
| Storage.LoadValidators | program/src/state.rs:234-267 | reading fails exactly on a short account or too large a count; otherwise program and client read the same records from any bytes, or none from version 0 |
| Storage.ValidatorsReadBack | experiment/tenderize.ts:354-379 | program and client recover every field of every record from the stored bytes, whatever the padding and whatever follows |
| Storage.StoreCredits | program/src/state.rs:438-455 | the same for credit lists, with the client's reader of creditors |
| Storage.CreditsReadBack | experiment/tenderize.ts:1126-1145 | program and client recover every credit from the stored bytes, whatever follows them |
| Storage.LoadCredits | program/src/state.rs:401-435 | the same for credit lists |
| Storage.ReadCreditors | experiment/tenderize.ts:1126-1145 | the client's cursor reads exactly the records the program stores |
| Storage.StorePool | program/src/state.rs:154-163 | the pool record is read back as stored and bytes past it are untouched |
| Storage.PoolRoundTrip | experiment/tenderize.ts:310-328 | program and client recover the pool record from its padded layout |
| Wire.LittleEndian | experiment/tenderize.ts:310-328 | stored numbers are little-endian |
| Instructions.EncodeDelegateReserve | experiment/tenderize.ts:619-693 | every non-empty, 32-bit counted plan decodes on-chain to its own entries, with two keys an entry |
| Instructions.EncodeMergeStakes | experiment/tenderize.ts:820-882 | every non-empty, 32-bit counted merge plan decodes on-chain to its own pairs, with two keys a pair |
| Instructions.EncodeUnstake | experiment/tenderize.ts:992-1061 | every non-empty, 32-bit counted unstake plan decodes on-chain to its encoded entries, with the keys pushed |
| Instructions.DelegateRoundTrip | program/src/instruction.rs:291-311 | the program decodes an encoded delegation batch to the planned entries |
| Instructions.MergeRoundTrip | program/src/instruction.rs:312-331 | the program decodes an encoded merge batch to the planned pairs |
| Instructions.UnstakeRoundTrip | program/src/instruction.rs:332-350 | the program decodes an encoded unstake batch to the entries its fields were taken to mean |
| Instructions.EmptyBatchPanics | program/src/instruction.rs:291-350 | an empty batch makes the decoder panic |
| Instructions.SingleRoundTrips | program/src/instruction.rs:260-290 | the client's single instructions decode to themselves |
| Instructions.UnknownBytesRefused | program/src/instruction.rs:260-354 | no other tag decodes, nor one with too few bytes after it |
| Instructions.UnstakeMeaningKept | experiment/tenderize.ts:1020-1022 | the encoding keeps the plan's meaning if and only if it does not split into account 0 from another account |
| Instructions.UnstakeKeysExact | experiment/tenderize.ts:1029-1053 | the handler uses up exactly the keys pushed if and only if no entry names its own non-zero source as split index |
| Instructions.UnstakeKeysMatch | program/src/processor.rs:2023-2058 | with such entries the handler finds each entry's own accounts at every step |

## Left out

- React components, hooks, wallet adapters, RPC transport, signing and the command line: user interface and I/O; fetched stake states are planner inputs.
- Owner and authority checks, signatures other than uncredit's, bump seeds and address search: each is settled by one branch; only the injective addressing is kept.
- SetStakingAuthority, which panics, and the checks of SetOwner, whose step changes two keys only.
- Wrapped-SOL deposits: the temporary account is collapsed to its net effect on the reserve.
- Separate token accounts: users and the fee account are one total, so the model does not say who holds which tokens, except for the trader of `Trading`.
- Internals of the stake program: whether a stake may be delegated again or joined is a flag of its state, which `Runs.StakeStateStep` may change at any time, not computed from its activation; limits on splitting and withdrawing are not modelled, and a refused call is a failed transaction. A fresh delegation records zero observed credits.
- Floating-point rounding of the stake curve: any integer-valued function stands for the entitlement, and `StakeCurve.Entitlement` is its exact value rounded down at the end.
- Time between planning and sending: plans are judged against the list they were made from, with no other transaction in between; which accounts are free or activating is planner input.
- JavaScript numbers above 2^53: the client's readers are modelled on the 64-bit values they read, before conversion, and the planner on whole lamports.
- The client's `unstake` amount planner: it subtracts stakes it does not unstake, so no exact-amount law holds of it.
- Trading.NoProfitWhenBounded: its condition is sufficient; a state that does not meet it need not offer a profit, and `Counterexamples.WrappingDepositBreaksLaws` shows one that does.
- StakingProofs.DelegateLoopAtLimit: a delegation batch is taken to have fewer than 2^32 entries, as its length field does.
- Runs.UnsafeBreaks: a delegation batch is taken to have fewer than 2^32 entries, as its length field does.
