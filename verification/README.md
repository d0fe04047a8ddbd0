# Verified model of the trading platform backend

This project models the parts of the NestJS backend where money, quota or concurrent requests must stay
consistent over whole runs, and proves what they keep:

- the **deposit address pool**: allocation, expiry, consumption by a deposit, review, removal
  (`DepositPool`, `DepositPoolLaws`, `DepositPoolTheorems`, `DepositPick`, `DepositOutcomes`,
  `DepositAddressService`);
- **funding review and the balance ledger**, with competing reviewers (`FundingDesk`, `FundingLaws`, `FundingOutcomes`,
  `FundingService`);
- the **trade ledger**: open, settle, re-settle, cancel, queue job and expiry sweep (`TradeLedger`, `TradeLaws`, `TradeOutcomes`,
  `TradeService`);
- **support chat**: the promise lock that keeps one open conversation per user (`ConversationLock`, `ConversationAnswers`), unread
  counters (`ChatCounters`), the event fan-out across instances (`SseFanout`, `SseSubscribers`), the CSV export (`CsvExport`,
  `CsvColumns`);
- **trading cycles** of managed sessions (`TradingCycles`, `CycleOutcomes`) and the **HTML escaper** of the contact mail (`HtmlEscape`).

`Wrappers` holds `Option` and `Result`; `Tally` holds weighted sums over table rows and the way they move.

`dafny verify dfyconfig.toml` checks the whole project.

## How it is built

Each part has a state, one pure function per service call (`Allocate`, `ReviewCommit`, `SystemSettle`, ...), an
event type and a `Run` over any sequence of events. The services themselves are classes whose methods update
rows in place, with the loops the code has; each method's `ensures` says that the rows it leaves and the result
it returns are those of the pure function, so the laws about runs are laws about the methods. The `...Outcomes`
modules say on the rows' own fields what each call accepts, refuses and writes. Fields and
constructors marked as history (`trail`, `claims`, `external`, `log`, `deliveries`, `sent`) record what happened
and are never read to decide anything.

Assumptions, all of them visible in the state machines:

- A service call is one atomic step. That is an assumption everywhere except for reviews, the only calls that run
  in a SERIALIZABLE transaction: allocation, release and deposit submission run in transactions of the database's
  default isolation level, trade operations, chat updates and cycle steps in none.
  Where interleaving is the point it is modelled: a review is a read and a later conditional update
  (`ReviewRead`, `ReviewCommit`), and `SerialRun` is a run whose reviews are whole; an allocation also exists as
  the two writes alone, for an address picked any time before (`DoReserve`); a settlement also exists split from
  the order and user rows it read (`DoSettleFrom`), a cancellation from the order it read (`DoCancelFrom`) and an
  opening from the balance it checked (`DoOpenFrom`); the sweep and the completion pass are a snapshot and one step
  per row, which may throw, with arbitrary other requests before each; the conversation lock is modelled at its
  awaits, with queries that execute or fail at any later time.
- Money is an `int` in units of 1e-8 and the return rate one of 1e-4, the scales of the columns. A win pays stake
  times rate rounded to the grid. The win rate is a `real`
  rounded to two decimals.
- Time is a field `now` that never goes back. A row's identifier is its position in the table and later rows
  were created later; ties of a sort are broken by table order.
- Texts arrive trimmed. Whether an order wins, whether the market is open, whether a duration is allowed, whether
  Redis takes a message and which subscriber throws are inputs, so every law holds for all of them.

## What turned out not to hold

Each failure is a lemma about every state in which it occurs, and each property is stated with its exact condition.

- Two reviews of one user's records that both read before either commits lose the first one's delta, although each
  record is still decided once: the conditional update protects the record, only the serializable transaction
  protects the balance (`InterleavedReviewsLoseAnUpdate`; `BalancedIffFresh` and `DriftOverRuns` give the condition
  and the exact loss).
- Nothing of the kind protects a trade settlement. Two settlements that both read the order as PENDING pay a win
  twice, and a credit that lands between the read and the write is lost (`StaleSettlementPaysTwice`,
  `InterruptedSettlementLosesCredit`). A cancellation that lands after the settlement, or after another
  cancellation, refunds on top of it (`StaleCancelRefundsAWin`, `StaleCancelRefundsTwice`). `ConservedIffNotStale`
  and `SurplusOverRuns` give the condition and the exact surplus. Openings that checked the same balance conserve
  money but may overdraw it (`BlackStep`).
- `settledAccountBalance` is entry balance plus return; it differs from the live balance by exactly the net effect
  of everything else on the account in between (`SnapshotDrift`).
- An update may set an address's capacity below what is already in use, and an allocation whose capacity check is
  out of date when it writes may go beyond it; those two, and nothing else, break the cap (`CapacityStep`). The
  totals stay exact even then (`QuotaOverRuns`).
- Assigning a closed conversation reopens it. Exactly when that is unsafe its user has two open ones at once or
  within two more steps (`AssignIffSafe`, `UnsafeAssignOpensTwo`).
- Recalling an unread message leaves the user's counter ahead of the messages (`UserCounterExactIff`).
- Nothing keeps one completion pass from starting before the last one is done. A start can lead to two running cycles
  of one session exactly when an earlier pass still holds a running cycle that it found under an ACTIVE session and
  whose session is ACTIVE now (`Harms`, `StartCanRunTwoIff`, `EverCanRunTwoIff`): that cycle is picked again, and
  handling it twice starts two (`OverlappingPassesRunTwo`). Any other overlap is harmless.
- Only creation checks that a user has no other ACTIVE session. No user ever has two exactly when no paused session
  is resumed while its user has an ACTIVE one (`ActiveStep`, `OneActiveThroughoutIff`).
- A session that is paused when its cycle is completed, or whose iteration throws, is left without a running cycle
  for good, resumed or not, once no other pass holds it (`CompletionContinuesIff`, `CompletionStallsIff`, `StalledForGood`).
- Withdrawal requests are checked one by one, so any two that the balance covers singly can be PENDING together; the
  reviews let both through exactly when it covers the sum (`PendingWithdrawalsMayExceedBalance`).

## Model

The table lists the laws and the methods that contain a loop or several dependent writes. The remaining handlers
(creating and updating an address, opening and cancelling an order, pausing a session and the like) are proved equal
to their step function in the same way, which makes the laws apply to them.

| member | source | states |
|---|---|---|
| `DepositPoolTheorems.QuotaOverRuns` | backend/src/deposit-address/deposit-address.service.ts:151-354 | After any sequence of steps, `pendingAmount` of every address is the sum of its unconsumed allocations plus the PENDING deposits sent to it; `usedAmount` is the approved deposits; and all units ever allocated split exactly into held, released, awaiting review, approved and rejected |
| `DepositPoolTheorems.EachUnitOnce` | backend/src/deposit-address/deposit-address.service.ts:226-240 | Units allocated at an address are counted in exactly one of the five fates |
| `DepositPoolTheorems.TotalsNonNegative` | backend/src/deposit-address/deposit-address.service.ts:340-353 | Decrements never take `pendingAmount` or `usedAmount` below zero |
| `DepositPoolTheorems.CapacityStep` | backend/src/deposit-address/deposit-address.service.ts:170-176 | A step keeps used + pending within every cap if and only if it is neither an accepted update below the current use nor the late writes of an allocation that no longer fits |
| `DepositPoolTheorems.CapacityReserved` | backend/src/deposit-address/deposit-address.service.ts:226-240 | Late writes of an allocation keep every cap if and only if the amount still fits at that moment |
| `DepositPoolTheorems.CapacityUpdated` | backend/src/deposit-address/deposit-address.service.ts:106-121 | The same equivalence for an administrator's update, cleared and unchanged capacities included |
| `DepositPoolTheorems.CapacityOverRuns` | backend/src/deposit-address/deposit-address.service.ts:170-176 | Used + pending stays within capacity at every capped address throughout a run if and only if no step of it is one of those two |
| `DepositPoolTheorems.RemovalIsReferentiallySafe` | backend/src/deposit-address/deposit-address.service.ts:134-143 | An address can be removed if and only if no unconsumed allocation and no PENDING deposit refers to it |
| `DepositPoolTheorems.FateStep` | backend/src/deposit-address/deposit-address.service.ts:273-281 | In one step a held allocation may be released or claimed, a claimed one approved or rejected for its own record, and nothing else changes |
| `DepositPoolTheorems.FateIsFinal` | backend/src/deposit-address/deposit-address.service.ts:305-320 | Over all runs an allocation keeps its terms, its fate only moves forward, and one that was released is never claimed by any deposit |
| `DepositPoolTheorems.ReleasedSoFar` | backend/src/deposit-address/deposit-address.service.ts:273-283 | Releasing rows one at a time, in any order, changes exactly those rows and takes exactly their amounts off their addresses |
| `DepositPoolTheorems.ReleaseOrderIrrelevant` | backend/src/deposit-address/deposit-address.service.ts:266-283 | Grouping the expired amounts by address gives the same state as releasing the expired rows one at a time in any order |
| `DepositPoolTheorems.ReleaseIsComplete` | backend/src/deposit-address/deposit-address.service.ts:260-276 | After the pass a row is unconsumed if and only if it was and has not expired; rows change in nothing else |
| `DepositPoolTheorems.AllocationWindow` | backend/src/deposit-address/deposit-address.service.ts:223-240 | Whatever happens after an allocation: its units are not released within thirty minutes; while they are held, the deposit form accepts that amount at that address within the thirty minutes unless the address was disabled or found RISKY, and after them only if the user has another matching allocation, never on this one |
| `DepositPoolTheorems.UndisturbedDeposit` | backend/src/funding/funding.service.ts:119-154 | With only time in between the deposit succeeds for exactly thirty minutes, bounds included, and claims that very allocation |
| `DepositPoolTheorems.AddressOver` | backend/src/deposit-address/deposit-address.service.ts:106-121 | Text and network of an address never change over a run, and a deleted address never comes back |
| `DepositPoolTheorems.FormedOverRuns` | backend/src/funding/funding.service.ts:593-602 | Every address in the pool matches its network's pattern, so the deposit form's format check never rejects an allocated address |
| `DepositPoolLaws.PoolStepKeepsInv` | backend/src/deposit-address/deposit-address.service.ts:41-354 | Every step keeps unique addresses, live references, the link between each deposit and the one allocation it claimed, and the running totals |
| `DepositPoolLaws.RunKeepsInv` | backend/src/deposit-address/deposit-address.service.ts:41-354 | The same over every run |
| `DepositPoolLaws.CreateKeepsInv` | backend/src/deposit-address/deposit-address.service.ts:47-64 | A new row starts with totals that match: nothing in any table refers to it or to its text |
| `DepositPoolLaws.NothingPending` | backend/src/deposit-address/deposit-address.service.ts:134-142 | A zero `pendingAmount` means no unconsumed allocation and no PENDING deposit refers to the address |
| `DepositPoolLaws.RemoveKeepsInv` | backend/src/deposit-address/deposit-address.service.ts:125-144 | Deleting an address, with the cascade to its allocations, leaves no dangling reference and keeps all totals |
| `DepositPoolLaws.AllocateKeepsInv` | backend/src/deposit-address/deposit-address.service.ts:151-249 | Allocation keeps totals, links and references |
| `DepositPoolLaws.ReserveKeepsInv` | backend/src/deposit-address/deposit-address.service.ts:226-240 | So do its two writes alone, however long ago the address was picked |
| `DepositPoolLaws.ReleaseKeepsInv` | backend/src/deposit-address/deposit-address.service.ts:257-290 | The release pass keeps totals, links and fates |
| `DepositPoolLaws.DepositKeepsInv` | backend/src/funding/funding.service.ts:120-154 | Submitting a deposit moves its units from held to awaiting review without touching the total |
| `DepositPoolLaws.WithdrawKeepsInv` | backend/src/funding/funding.service.ts:187-200 | A withdrawal request does not touch the pool |
| `DepositPoolLaws.PendingDepositFindsItsRow` | backend/src/deposit-address/deposit-address.service.ts:337-338 | At review time a PENDING deposit finds the very address row its allocation reserved, so the silent skip never happens to it |
| `DepositPoolLaws.DecidedSums` | backend/src/deposit-address/deposit-address.service.ts:340-353 | A decision takes the deposit's amount off the pending side of its own address only, and puts it on the used side exactly when approved |
| `DepositPoolLaws.DecideKeepsInv` | backend/src/funding/funding.service.ts:531-538 | Deciding a record, deposit or withdrawal, keeps the whole pool invariant |
| `DepositPool.FindByAddress` | backend/src/deposit-address/deposit-address.service.ts:358-360 | Finds a live row with the text, or there is none |
| `DepositPool.LatestClaimable` | backend/src/deposit-address/deposit-address.service.ts:305-315 | Finds the newest allocation a deposit may consume: it qualifies, none created later does; or none qualifies |
| `DepositPick.PickIsLeast` | backend/src/deposit-address/deposit-address.service.ts:159-223 | The pick passes every filter and precedes every other address that does, under (used by this user, sortOrder, createdAt, table order); there is no pick if and only if nothing fits |
| `DepositPick.LeastIsThePick` | backend/src/deposit-address/deposit-address.service.ts:215-223 | Only one address is least, so the comparator alone determines the pick |
| `DepositPick.BeforeIsTransitive` | backend/src/deposit-address/deposit-address.service.ts:215-221 | The comparator is transitive, as sorting requires |
| `DepositPick.UsedOnlyWhenAllAre` | backend/src/deposit-address/deposit-address.service.ts:208-218 | While some fitting address is unused by the user, the pick is an unused one |
| `DepositPick.DistinctStep` | backend/src/deposit-address/deposit-address.service.ts:197-213 | One step keeps each user's active allocations on different addresses if and only if it does not allocate an address on which that user holds one |
| `DepositPick.FreshIsSingle` | backend/src/deposit-address/deposit-address.service.ts:208-223 | While a fitting address is unused by the user, an allocation does not do that |
| `DepositPick.DistinctOverRuns` | backend/src/deposit-address/deposit-address.service.ts:197-213 | The allocations a user holds are on different addresses throughout a run if and only if no step of it does that |
| `DepositPick.NoRepeatInWindow` | backend/src/deposit-address/deposit-address.service.ts:197-213 | Over whole runs, refused allocations included, while an unused fitting address remains at each accepted one, the allocations a user holds at any moment are on different addresses |
| `DepositOutcomes.HandedOutFirst` | backend/src/deposit-address/deposit-address.service.ts:159-223 | The address handed out is enabled, not RISKY, on the network, within its range and has room; against every other such address an unused one goes first, then the smaller sortOrder, the earlier createdAt, the earlier row |
| `DepositOutcomes.UsedMeans` | backend/src/deposit-address/deposit-address.service.ts:186-213 | Used by this user: one of the user's latest 50 deposits to addresses on offer went there, or the user holds an unconsumed, unexpired allocation there |
| `DepositOutcomes.RecentTargetsIff` | backend/src/deposit-address/deposit-address.service.ts:187-196 | A text is among the recent targets if and only if some matching deposit went there with fewer matching ones after it than are taken |
| `DepositOutcomes.AllocationRefusedIff` | backend/src/deposit-address/deposit-address.service.ts:178-184 | An allocation is refused if and only if the amount is not positive or no address is on offer for it, and then changes nothing |
| `DepositOutcomes.AllocationWrites` | backend/src/deposit-address/deposit-address.service.ts:223-240 | It adds the amount to one address and one row that expires 1 800 000 ms from now |
| `DepositOutcomes.DepositAcceptedIff` | backend/src/funding/funding.service.ts:72-154 | A deposit is accepted if and only if amounts, coin and network, format, fresh hash, usable pool address and a matching held allocation are all there |
| `DepositOutcomes.DepositRefused` | backend/src/funding/funding.service.ts:73-151 | A refused deposit changes nothing, and each error is returned exactly when its check is the first to fail |
| `DepositOutcomes.DepositRecorded` | backend/src/funding/funding.service.ts:120-153 | An accepted deposit adds one PENDING record with its network and hash and consumes one allocation held for just that |
| `DepositOutcomes.OneRecordPerTransfer` | backend/src/funding/funding.service.ts:84-93 | In every reachable state two records with one network and one transaction hash are the same record |
| `DepositOutcomes.ResubmissionIsRefused` | backend/src/funding/funding.service.ts:84-93 | After an accepted deposit, whatever happens, its hash is refused as a duplicate to everyone on that network and nothing changes |
| `DepositOutcomes.WithdrawAcceptedIff` | backend/src/funding/funding.service.ts:171-185 | A withdrawal request is accepted if and only if it is at least 10, well formed, of a verified user and covered by the balance seen |
| `DepositOutcomes.WithdrawOutcome` | backend/src/funding/funding.service.ts:171-200 | It adds one PENDING record, or changes nothing and returns the error of the first check that failed |
| `DepositOutcomes.WellFormedIsThePattern` | backend/src/funding/funding.service.ts:44-48 | The format check accepts a text if and only if it splits along one of its network's patterns |
| `DepositOutcomes.CreateAcceptedIff` | backend/src/deposit-address/deposit-address.service.ts:43-78 | An address is created if and only if its range is not empty, its format right and its text new |
| `DepositOutcomes.CreatedIsOffered` | backend/src/deposit-address/deposit-address.service.ts:47-64 | A created address is on offer for an amount if and only if what was asked for allows it |
| `DepositOutcomes.UpdateChangesWhatItNames` | backend/src/deposit-address/deposit-address.service.ts:94-121 | An update changes the fields it names to the values it gives, and nothing else |
| `DepositOutcomes.RemovalWrites` | backend/src/deposit-address/deposit-address.service.ts:125-144 | A removal deletes the address and exactly the allocations that point at it |
| `DepositOutcomes.VerdictTakesAddressOut` | backend/src/deposit-address/deposit-address-risk-checker.service.ts:64-95 | A verdict is written for TRC20 addresses only, and a RISKY one is on offer for no amount |
| `DepositOutcomes.TablesOverRuns` | backend/src/deposit-address/deposit-address.service.ts:374-388 | In every reachable state no range is empty, only TRC20 addresses carry a verdict, and addresses and records stand in order of creation |
| `DepositAddressService.Service.Remove` | backend/src/deposit-address/deposit-address.service.ts:125-144 | Deletes the row and, by the cascade, all its allocations, or refuses |
| `DepositAddressService.Service.AllocateForUser` | backend/src/deposit-address/deposit-address.service.ts:151-249 | Filter, used set, sort and the two writes leave exactly the state of the specification; the chosen row is the least one; it fails for lack of an address if and only if none fits |
| `DepositAddressService.Service.FittingRows` | backend/src/deposit-address/deposit-address.service.ts:159-176 | Exactly the rows that pass the query and the capacity filter, in table order |
| `DepositAddressService.Service.RecentlyUsed` | backend/src/deposit-address/deposit-address.service.ts:187-196 | The targets of the user's latest 50 deposits among the candidates |
| `DepositAddressService.Service.ActivelyHeld` | backend/src/deposit-address/deposit-address.service.ts:199-207 | Exactly the addresses on which the user has an unconsumed, unexpired allocation |
| `DepositAddressService.Service.FirstSorted` | backend/src/deposit-address/deposit-address.service.ts:215-223 | The head of the sorted candidates is the least fitting row of the table |
| `DepositAddressService.Service.ReleaseExpiredAllocations` | backend/src/deposit-address/deposit-address.service.ts:257-290 | Collecting, grouping in a map, marking and paying back gives the specified release, and the returned count is the number of expired rows |
| `DepositAddressService.Service.GroupExpired` | backend/src/deposit-address/deposit-address.service.ts:266-271 | The map holds, for every address, the sum of its expired amounts, and has no key without a live row |
| `DepositAddressService.Service.PayBack` | backend/src/deposit-address/deposit-address.service.ts:278-283 | One decrement per key, in whatever order the keys come, gives back to each address its sum |
| `DepositAddressService.Service.ConsumeAllocation` | backend/src/deposit-address/deposit-address.service.ts:296-322 | Consumes the newest matching allocation and reports whether there was one; a miss changes nothing |
| `FundingLaws.RecordStep` | backend/src/funding/funding.service.ts:485-507 | One step writes a record only while it is PENDING, and then only its status and balance fields |
| `FundingLaws.RecordOverRuns` | backend/src/funding/funding.service.ts:485-507 | However reviewers interleave between read and conditional update, a record leaves PENDING at most once and is never written again |
| `FundingOutcomes.StatusTellsTheReview` | backend/src/funding/funding.service.ts:481-496 | However reviewers interleave: a COMPLETED record was decided by a review that approved it, with its balance applied exactly if that review did not decline it; a FAILED one by a review that rejected it, and nothing was applied |
| `FundingOutcomes.StatusWrites` | backend/src/funding/funding.service.ts:485-499 | One step of any interleaving changes a status only by a commit that finds the record PENDING, to what that review read |
| `FundingOutcomes.CommitDecides` | backend/src/funding/funding.service.ts:485-529 | A commit decides a PENDING record as it read it; without applying, balances and ledger stay, and a rejection changes no used amount |
| `FundingOutcomes.ReviewSucceedsIff` | backend/src/funding/funding.service.ts:400-476 | A review succeeds if and only if the verdict and the balance option fit, the record is there and PENDING, and an applied withdrawal is covered; otherwise nothing changes |
| `FundingOutcomes.RejectionLeaves` | backend/src/funding/funding.service.ts:481-498 | A rejection leaves the record, deposit or withdrawal, FAILED and unapplied, and balances, ledger and every used amount unchanged |
| `FundingOutcomes.ApprovalLeaves` | backend/src/funding/funding.service.ts:478-529 | An approval leaves it COMPLETED and applied unless declined, with the balance before and after, one ledger entry, and only its own user's balance moved |
| `FundingLaws.DeskInvOverRuns` | backend/src/funding/funding.service.ts:478-529 | Over every interleaving: ledger entries are in bijection with records that have `balanceApplied`, each entry has after = before + delta with delta = amount signed by type and the record's snapshots, and their net is applied deposits minus applied withdrawals |
| `FundingLaws.DeskStepKeepsInv` | backend/src/funding/funding.service.ts:425-556 | One step of any reviewer, request or outside delta keeps that invariant together with the pool's |
| `FundingLaws.DriftStep` | backend/src/funding/funding.service.ts:509-515 | The gap between a balance and what opening, outside deltas and ledger explain moves only when a commit overwrites a balance it did not read, by exactly that difference |
| `FundingLaws.DriftOverRuns` | backend/src/funding/funding.service.ts:509-529 | Over every interleaving the gap is the sum of those differences |
| `FundingLaws.BalancedIffFresh` | backend/src/funding/funding.service.ts:509-515 | A step keeps all balances explained if and only if a committing review overwrites the balance it read |
| `FundingLaws.AtomicReviewIsFresh` | backend/src/funding/funding.service.ts:411-416 | A review run as one transaction commits on the balance it read, and is the two halves back to back |
| `FundingLaws.SerialIsFresh` | backend/src/funding/funding.service.ts:411-416 | Over every run whose reviews are whole transactions, with any requests and outside deltas in between, every commit overwrites exactly the balance it read |
| `FundingLaws.BalancedOverRuns` | backend/src/funding/funding.service.ts:411-416 | Over every such run each balance is opening plus outside deltas plus the user's ledger entries |
| `FundingLaws.SolventOverRuns` | backend/src/funding/funding.service.ts:466-476 | However reviewers interleave, no real balance is ever negative throughout a run if and only if no outside debit overdraws one |
| `FundingLaws.SolventStep` | backend/src/funding/funding.service.ts:466-481 | One step of any interleaving keeps all balances non-negative if and only if it is not an outside overdraft: what a commit writes is covered by what it read, fresh or not |
| `FundingLaws.WithdrawalsCovered` | backend/src/funding/funding.service.ts:466-481 | Over every such run applied withdrawals never exceed opening balance plus outside deltas plus applied deposits |
| `FundingLaws.LedgerReplays` | backend/src/funding/funding.service.ts:517-528 | Over every such run, outside deltas included, each entry's `beforeBalance` is what opening balance, the outside deltas so far and the user's earlier entries add up to when it is written |
| `FundingLaws.LedgerReplaysFromOpening` | backend/src/funding/funding.service.ts:517-528 | Without outside deltas replaying the ledger from the opening balances gives every `beforeBalance` |
| `FundingLaws.InterleavedReviewsLoseAnUpdate` | backend/src/funding/funding.service.ts:463-515 | For any two reviews of one user's records that both read first: the balance shows only the second delta, and exactly the first is unexplained |
| `FundingLaws.SecondWithdrawalIff` | backend/src/funding/funding.service.ts:466-476 | For any two PENDING withdrawals of a user, once the first is approved the second is approved if and only if the balance covered both, and refused otherwise |
| `FundingLaws.PendingWithdrawalsMayExceedBalance` | backend/src/funding/funding.service.ts:182-200 | From any state, any two amounts the balance covers singly become PENDING together whatever their sum, and both pass review if and only if it covers the sum |
| `FundingService.Service.CreateDeposit` | backend/src/funding/funding.service.ts:72-165 | Amount, network, format, hash and address checks in the code's order; the record and the consumed allocation appear together, or the transaction is rolled back and nothing changes |
| `FundingService.Service.ReviewRecord` | backend/src/funding/funding.service.ts:395-556 | Status, balance, ledger entry and address totals change together as in an uninterrupted read and commit, or not at all |
| `TradeLaws.LedgerOverRuns` | backend/src/transaction-log/transaction-log.service.ts:240-259 | For every interleaving of user settlement, queue job, sweep, cancel and re-settlement on current reads: each balance is opening plus outside deltas plus, per order, -invest if PENDING, its return if SETTLED, 0 if CANCELED; and all cached statistics equal a recount |
| `TradeLaws.SurplusStep` | backend/src/transaction-log/transaction-log.service.ts:1194-1210 | A step creates or destroys money by exactly the staleness of the rows a settlement or cancellation read; every other step conserves it |
| `TradeLaws.SurplusOverRuns` | backend/src/transaction-log/transaction-log.service.ts:524-642 | Over every run, stale settlements, cancellations and openings included, the unexplained money on an account is the sum of those staleness terms |
| `TradeLaws.ConservedIffNotStale` | backend/src/transaction-log/transaction-log.service.ts:544-642 | A step keeps conservation if and only if what a split settlement or cancellation read still adds up |
| `TradeLaws.SettleSurplus` | backend/src/transaction-log/transaction-log.service.ts:631-642 | The same for one settlement, first or repeated, seen from any account |
| `TradeLaws.CancelSurplus` | backend/src/transaction-log/transaction-log.service.ts:693-730 | A refund creates exactly the stake plus what the order has already done to the account: nothing for a PENDING order |
| `TradeLaws.OpenSurplus` | backend/src/transaction-log/transaction-log.service.ts:210-259 | The stake taken is exactly what the new PENDING order accounts for, whatever balance had been checked |
| `TradeLaws.OrdersOkStep` | backend/src/transaction-log/transaction-log.service.ts:228-229 | An order that is not SETTLED has `actualReturn` 0, and a SETTLED one has its snapshot at entry balance plus return; every step keeps this |
| `TradeLaws.StatsStep` | backend/src/transaction-log/transaction-log.service.ts:1215-1241 | Every step on current reads keeps `totalTrades`, `totalProfitLoss` and `winRate` equal to a recount over the SETTLED REAL orders |
| `TradeLaws.SettleKeepsStats` | backend/src/transaction-log/transaction-log.service.ts:1212-1242 | The incremental update agrees with the recount for a first settlement and for a repeated one |
| `TradeLaws.StatisticsAreConsistent` | backend/src/transaction-log/transaction-log.service.ts:1115-1147 | In every reachable state the cached trades, profit and win rate are those of a recount over the SETTLED REAL orders |
| `TradeLaws.RepairChangesNothingIff` | docs/fix-user-statistics.sql:9-34 | The repair script (reset, then rewrite users that have settled orders) leaves the table as it is if and only if all cached statistics agree with a recount |
| `TradeLaws.RepairChangesNothing` | docs/fix-user-statistics.sql:9-34 | So in every reachable state it changes nothing |
| `TradeLaws.WinRateIsClose` | backend/src/transaction-log/transaction-log.service.ts:1145-1153 | The rounded win rate lies between 0 and 100 and within half a hundredth of the exact percentage |
| `TradeLaws.StatusStep` | backend/src/transaction-log/transaction-log.service.ts:512-515 | On current reads an order keeps its terms; PENDING may become anything, SETTLED and CANCELED are final |
| `TradeLaws.StatusOverRuns` | backend/src/transaction-log/transaction-log.service.ts:512-515 | The same finality over whole runs on current reads |
| `TradeLaws.PayoutBounds` | backend/src/transaction-log/transaction-log.service.ts:583-587 | A result lies between losing the stake and ten times the stake, and a win is within half a unit of stake times rate |
| `TradeOutcomes.ReturnOf` | backend/src/transaction-log/transaction-log.service.ts:583-587 | A loss returns minus the stake, a win stake times rate rounded to the nearest unit |
| `TradeOutcomes.OpenAcceptedIff` | backend/src/transaction-log/transaction-log.service.ts:132-175 | An order is accepted if and only if its terms, the market, the user, the chosen account's balance and, for REAL, verification and duration allow it |
| `TradeOutcomes.OpenRefused` | backend/src/transaction-log/transaction-log.service.ts:132-175 | A refused order changes nothing, and each error is returned exactly when its check is the first to fail |
| `TradeOutcomes.OpenWrites` | backend/src/transaction-log/transaction-log.service.ts:183-259 | It is written with its terms, the balance before it and an expiry of its duration in seconds from now; the stake leaves the chosen account only |
| `TradeOutcomes.SweepSelectsOnTime` | backend/src/transaction-log/transaction-log.service.ts:808-818 | At any later moment of any run the sweep selects an order if and only if it is PENDING and its duration has passed since it was opened |
| `TradeOutcomes.TermsStay` | backend/src/transaction-log/transaction-log.service.ts:613-622 | Whatever happens, owner, account, stake, rate, entry balance and expiry of an order stay as written |
| `TradeOutcomes.CancelOutcome` | backend/src/transaction-log/transaction-log.service.ts:684-730 | Exactly the owner of a PENDING order may cancel it; the stake returns to the account it came from |
| `TradeOutcomes.WhoSettles` | backend/src/transaction-log/transaction-log.service.ts:501-518 | Only the owner settles by request and only a PENDING order changes; the queue job touches PENDING orders only; the system refuses canceled ones only |
| `TradeOutcomes.SettlementPays` | backend/src/transaction-log/transaction-log.service.ts:1196-1246 | A first settlement pays stake plus return on the order's account, a repeated one the change of the return; no other account and no other user moves |
| `TradeOutcomes.SettlementCounts` | backend/src/transaction-log/transaction-log.service.ts:1215-1222 | A REAL order counts as one more trade the first time only, and the profit moves by the change of its return |
| `TradeLaws.BalanceStep` | backend/src/transaction-log/transaction-log.service.ts:631-652 | A step moves a balance by what it does through one order plus what it does otherwise |
| `TradeLaws.SnapshotDrift` | backend/src/transaction-log/transaction-log.service.ts:644-652 | From creation on, whenever an order is settled, live balance minus `settledAccountBalance` is the net effect of everything else on the account since; they agree if and only if those effects cancel |
| `TradeLaws.StaleSettlementPaysTwice` | backend/src/transaction-log/transaction-log.service.ts:529-544 | Two settlements that both read PENDING, with any two outcomes: after a loss the second does no harm, after a win it pays that win again together with the stake |
| `TradeLaws.StaleCancelRefundsAWin` | backend/src/transaction-log/transaction-log.service.ts:680-730 | A cancellation that read PENDING and lands after the settlement refunds the stake of a win and takes nothing back; after a loss it only undoes it |
| `TradeLaws.StaleCancelRefundsTwice` | backend/src/transaction-log/transaction-log.service.ts:680-730 | Two cancellations that both read PENDING refund the stake twice |
| `TradeLaws.InterruptedSettlementLosesCredit` | backend/src/transaction-log/transaction-log.service.ts:1188-1210 | A credit between the read and the write of a settlement vanishes entirely |
| `TradeLaws.BlackStep` | backend/src/transaction-log/transaction-log.service.ts:152-156 | A step on current order rows makes a balance negative if and only if it settles a SETTLED order again for more than there is, is an outside debit beyond the balance, or takes a stake beyond the balance after an outdated check |
| `TradeLaws.BlackOverRuns` | backend/src/transaction-log/transaction-log.service.ts:152-156 | Over runs without such a step no account ever goes negative |
| `TradeService.Service.SettleTransactionBySystem` | backend/src/transaction-log/transaction-log.service.ts:524-671 | Order, account, statistics and snapshot after the three writes are those of the specification; only a canceled order is refused |
| `TradeService.Service.UpdateUserAccountAfterSettle` | backend/src/transaction-log/transaction-log.service.ts:1180-1253 | Only the owner's row changes, to the balance and statistics of the specification; a missing user is skipped |
| `TradeService.Service.CountWins` | backend/src/transaction-log/transaction-log.service.ts:1225-1232 | Counts exactly the SETTLED REAL orders with a positive return |
| `TradeService.Service.GetUserStatistics` | backend/src/transaction-log/transaction-log.service.ts:1115-1159 | Counts are a true recount, wins and losses add up, the rate is rounded to two decimals, and in a consistent book the cached figures returned beside them agree |
| `TradeService.Service.ExpiredOrders` | backend/src/transaction-log/transaction-log.service.ts:811-818 | The snapshot is exactly the expired PENDING orders |
| `TradeService.Service.AutoSettleExpiredTransactions` | backend/src/transaction-log/transaction-log.service.ts:807-856 | With arbitrary requests before each order and any turns that throw: the final book is that of the interleaved run, the count is the turns that did not throw on an order not canceled by then, and every order whose turn did not throw has left PENDING |
| `TradeService.LeftPendingForGood` | backend/src/transaction-log/transaction-log.service.ts:507-515 | Once out of PENDING an order never returns to it, over all runs, stale reads included |
| `TradeService.SweepLeavesNonePending` | backend/src/transaction-log/transaction-log.service.ts:823-852 | However requests interleave with the sweep, stale ones included, an order of its snapshot can be left PENDING only if its own turn threw |
| `TradeService.UndisturbedSweep` | backend/src/transaction-log/transaction-log.service.ts:823-852 | Undisturbed, exactly the orders whose turn threw are left PENDING and all others are SETTLED |
| `ConversationLock.OneConversationPerUser` | backend/src/support/support.service.ts:25-98 | For any number of calls interleaved at every await, failures included: at most one open conversation per user, callers get conversations of their own user, waiters get the creator's answer, and a lock entry exists exactly while one call of that user is in flight |
| `ConversationAnswers.ReturnedWasOpen` | backend/src/support/support.service.ts:25-98 | Over every run, failures and unsafe assignments included, a returned conversation is one of the caller's that was PENDING or ACTIVE in some state after that call, or the one it awaited, had arrived |
| `ConversationAnswers.ReturnedIsOpen` | backend/src/support/support.service.ts:25-98 | In a run without a close it is still open at the end |
| `ConversationAnswers.LookupIsExact` | backend/src/support/support.service.ts:27-72 | Each look-up finds an open conversation of its user if and only if there is one at that moment |
| `ConversationAnswers.InsertAddsOne` | backend/src/support/support.service.ts:75-84 | An insert adds one PENDING conversation of the caller, and over safe runs only when the caller has none open |
| `ConversationAnswers.NobodyFailsByItself` | backend/src/support/support.service.ts:53-92 | Without a failing query no call fails |
| `ConversationAnswers.StatusEvents` | backend/src/support/support.service.ts:241-253 | Closing and assigning change that conversation's status only |
| `ConversationLock.InvOverRuns` | backend/src/support/support.service.ts:25-98 | The invariant behind it over every run whose assignments are safe |
| `ConversationLock.StepKeepsInv` | backend/src/support/support.service.ts:25-98 | Each await step, arrival, failed query, close and safe assignment keeps it |
| `ConversationLock.ExecuteKeepsOpen` | backend/src/support/support.service.ts:54-84 | An insert happens only when the user has nothing open, and no other call is about to insert for that user |
| `ConversationLock.ResumeKeepsLocks` | backend/src/support/support.service.ts:45-97 | Taking and releasing the entry keeps it identical with the one in-flight creator |
| `ConversationLock.ResumeKeepsWaiters` | backend/src/support/support.service.ts:46-50 | Whoever awaited a promise holds its answer |
| `ConversationLock.BreakKeepsInv` | backend/src/support/support.service.ts:88-91 | A failing query leaves no stale lock and no wrong answer |
| `ConversationLock.AssignIffSafe` | backend/src/support/support.service.ts:309-322 | Assigning keeps the invariant if and only if the conversation is open, or nothing of its user is open or about to be inserted |
| `ConversationLock.UnsafeAssignOpensTwo` | backend/src/support/support.service.ts:309-322 | Any other assignment gives its user two open conversations at once or within two steps of the call about to insert |
| `ConversationLock.CallMoves` | backend/src/support/support.service.ts:46-97 | An unfinished call, or the call it awaits, has a step that brings it strictly nearer to its end |
| `ConversationLock.NobodyIsSetBack` | backend/src/support/support.service.ts:46-97 | No step of anybody ever takes a call further from its end |
| `ConversationLock.NobodyWaitsForever` | backend/src/support/support.service.ts:46-97 | From any reachable state at most nine steps of a call and of the one it awaits make it return or fail: the lock cannot deadlock |
| `ConversationLock.FindOpen` | backend/src/support/support.service.ts:27-38 | Returns an open conversation of the user, or there is none |
| `ChatCounters.CountersOverRuns` | backend/src/support/support.service.ts:168-231 | In every reachable state `unreadAdminCount` is the number of unread USER messages, and `unreadUserCount` that of unread ADMIN messages plus those recalled unread since the user last read |
| `ChatCounters.AheadStep` | backend/src/support/support.service.ts:168-231 | One send, read or recall moves the gap between counter and count as that history says |
| `ChatCounters.UserCounterExactIff` | backend/src/support/support.service.ts:429-432 | The user counter is exact if and only if no unread message was recalled since the last visit |
| `ChatCounters.CountersAreSendsSinceRead` | backend/src/support/support.service.ts:168-178 | Both counters are the number of messages the other side sent since the last visit; SYSTEM messages count for neither |
| `ChatCounters.RecallOutcome` | backend/src/support/support.service.ts:412-432 | A recall succeeds if and only if the message is there and the administrator's own; it deletes the row and leaves the counters |
| `ChatCounters.ReadFlags` | backend/src/support/support.service.ts:148-158 | A message arrives unread, and a visit marks exactly the other side's messages |
| `ChatCounters.Conversation.MarkAsRead` | backend/src/support/support.service.ts:197-231 | Zeroes the reader's counter and leaves no unread message of the other side |
| `SseFanout.ExactlyOncePerInstance` | backend/src/support/support-sse.service.ts:50-66 | Over any run of any fleet, each broadcast reaches each instance's subscriber set at most once, and exactly once when its channel is drained and it is the sender or Redis took the message |
| `SseSubscribers.SubscribersAreThoseStillThere` | backend/src/support/support-sse.service.ts:101-132 | After any run the subscribers of a conversation on an instance are exactly those who subscribed and have neither left nor thrown since |
| `SseSubscribers.DeliveryReaches` | backend/src/support/support-sse.service.ts:223-236 | Over any run each delivery reaches exactly those still subscribed at that moment who do not throw |
| `SseSubscribers.DeliveryStep` | backend/src/support/support-sse.service.ts:212-244 | An event adds one delivery on the instance it delivers on and none on any other |
| `SseFanout.InvOverRuns` | backend/src/support/support-sse.service.ts:191-244 | Over any run each instance delivers each origin's events in sending order, and no stream map ever holds an empty set |
| `SseFanout.StepKeepsInv` | backend/src/support/support-sse.service.ts:101-132 | Subscribing, leaving, broadcasting and draining keep order and clean maps |
| `SseFanout.HandleMovesOne` | backend/src/support/support-sse.service.ts:58-62 | Handling a message moves it from waiting to delivered, unless it is the instance's own echo, which disappears |
| `SseFanout.BroadcastFollows` | backend/src/support/support-sse.service.ts:191-210 | A broadcast is delivered at the sender and queued everywhere, keeping each origin's order |
| `SseFanout.Service.DeliverToLocalSubscribers` | backend/src/support/support-sse.service.ts:212-244 | Exactly the subscribers that did not throw are reached, the others are dropped, and no empty set remains |
| `SseFanout.Service.Push` | backend/src/support/support-sse.service.ts:220-231 | The subjects collected as dead are exactly the subscribers that throw |
| `CsvExport.CsvRoundTrip` | backend/src/support/support.service.ts:599-604 | For all cell texts, an RFC 4180 section 2 reader with LF line ends returns the header and the rows |
| `CsvExport.ParseQuoted` | backend/src/support/support.service.ts:602 | A quoted cell is read back up to its closing quote, whatever quotes, commas and line breaks it holds |
| `CsvExport.ParsePrintedRow` | backend/src/support/support.service.ts:601-603 | A printed row is read back cell by cell |
| `CsvExport.HeadersArePlain` | backend/src/support/support.service.ts:531-548 | The unquoted header has sixteen cells that need no quoting |
| `CsvExport.FlattenCount` | backend/src/support/support.service.ts:551-596 | The export has max(1, number of messages) rows per conversation |
| `CsvExport.FlattenOrder` | backend/src/support/support.service.ts:551-596 | Message m of conversation k is the row at (rows of the conversations before) + m |
| `CsvExport.FlattenShape` | backend/src/support/support.service.ts:556-593 | Every row has sixteen cells, like the header |
| `CsvExport.ExportRoundTrip` | backend/src/support/support.service.ts:521-607 | Reading an export returns its header and exactly the flattened rows |
| `CsvColumns.ExportedUnderItsHeaders` | backend/src/support/support.service.ts:531-596 | Reading an export back, every message has each of its sixteen fields under its header in its own line, with the two texts of the read flag, and a conversation without messages its placeholder line |
| `CsvExport.ExportConversationsAsCsv` | backend/src/support/support.service.ts:521-607 | The two nested loops print the flattened rows, and the text reads back to them |
| `TradingCycles.CyclesOverRuns` | backend/src/trading-management/trading-management.service.ts:275-373 | For all interleavings without a harmful start, iterations that throw included: each session's cycles are numbered 1, 2, 3 and so on, at most its last one runs, none runs once it is stopped, and none completes before its end |
| `TradingCycles.InvOverRuns` | backend/src/trading-management/trading-management.service.ts:275-373 | The invariant over every run without a harmful start |
| `TradingCycles.StepKeepsInv` | backend/src/trading-management/trading-management.service.ts:21-157 | A step keeps the invariant behind it if and only if it is not a harmful start: one while an earlier pass still holds a running cycle found under an ACTIVE session that is ACTIVE now |
| `TradingCycles.BeginKeepsInvIff` | backend/src/trading-management/trading-management.service.ts:328-341 | The same for the start of a pass |
| `TradingCycles.StartCanRunTwoIff` | backend/src/trading-management/trading-management.service.ts:328-341 | After a start, some continuation without another start gives a session two running cycles if and only if the start was harmful |
| `TradingCycles.EverCanRunTwoIff` | backend/src/trading-management/trading-management.service.ts:328-341 | Over every run: some moment can lead, without another start, to two running cycles of one session if and only if some pass of the run starts harmfully |
| `TradingCycles.LastNumberIsCount` | backend/src/trading-management/trading-management.service.ts:276-298 | The highest cycle number of a session is the number of its cycles, so the next number is unused and leaves no gap |
| `CycleOutcomes.NotCompletedEarly` | backend/src/trading-management/trading-management.service.ts:300-316 | Over every run, overlapping passes included, no cycle is completed before its session's interval in seconds has passed since it started |
| `CycleOutcomes.PassPicksOnTime` | backend/src/trading-management/trading-management.service.ts:330-341 | A pass picks a cycle if and only if it runs and its interval has passed, and notes whether its session is ACTIVE |
| `CycleOutcomes.CyclesStep` | backend/src/trading-management/trading-management.service.ts:300-317 | A step adds at most one cycle, of an ACTIVE session, that starts now and ends its interval later; times and numbers never change |
| `CycleOutcomes.IterationWrites` | backend/src/trading-management/trading-management.service.ts:344-371 | An iteration leaves its cycle COMPLETED, or FAILED when something threw, and no other cycle or session changed |
| `CycleOutcomes.CreateOutcome` | backend/src/trading-management/trading-management.service.ts:22-59 | A session is created if and only if the user is known and has no ACTIVE one; its first cycle has number 1 and runs from now |
| `CycleOutcomes.CommandOutcome` | backend/src/trading-management/trading-management.service.ts:69-157 | Pause, resume and stop act from the required status only; stopping fails exactly the session's unfinished cycles |
| `TradingCycles.StopKeepsInv` | backend/src/trading-management/trading-management.service.ts:83-100 | Stopping fails every unfinished cycle, also those a pass has already picked up |
| `TradingCycles.CompleteKeepsCycles` | backend/src/trading-management/trading-management.service.ts:349-362 | Completing a picked cycle and starting the next keeps numbering and at most one running cycle, whatever happened since the snapshot |
| `TradingCycles.StoppedForGood` | backend/src/trading-management/trading-management.service.ts:78-100 | A stopped session stays stopped and never gets another cycle, over all runs, overlapping passes included |
| `TradingCycles.CompletionContinuesIff` | backend/src/trading-management/trading-management.service.ts:344-371 | After an iteration its session has a running cycle if and only if nothing threw, it was ACTIVE in the snapshot and is ACTIVE now, or another cycle of it was running beside, which cannot be while the handled cycle is its latest |
| `TradingCycles.CompletionStallsIff` | backend/src/trading-management/trading-management.service.ts:344-371 | An iteration leaves its session with nothing running and no entry that can start a cycle if and only if it started none itself, none runs beside and no other entry can start one |
| `TradingCycles.StalledForGood` | backend/src/trading-management/trading-management.service.ts:145-152 | Such a session never has a running cycle again, over all runs: resuming it starts none |
| `TradingCycles.OverlappingPassesRunTwo` | backend/src/trading-management/trading-management.service.ts:333-362 | From any state with a harmful entry, a second pass picks its cycle again, and handling it twice leaves two running cycles |
| `TradingCycles.OverlapIsReachable` | backend/src/trading-management/trading-management.service.ts:328-341 | Create, wait, begin a pass: such a state is reachable |
| `TradingCycles.ActiveStep` | backend/src/trading-management/trading-management.service.ts:136-152 | A step keeps at most one ACTIVE session per user if and only if it does not resume a PAUSED one of a user who has an ACTIVE one |
| `TradingCycles.OneActiveThroughoutIff` | backend/src/trading-management/trading-management.service.ts:33-42 | Over every run no user ever has two ACTIVE sessions if and only if no such resume occurs |
| `TradingCycles.ResumeMayMakeTwoActive` | backend/src/trading-management/trading-management.service.ts:145-152 | Pause, create, resume: such a resume is reachable |
| `TradingCycles.Service.Stop` | backend/src/trading-management/trading-management.service.ts:69-105 | Only an ACTIVE session stops, and exactly its unfinished cycles fail |
| `TradingCycles.Service.FindDue` | backend/src/trading-management/trading-management.service.ts:333-341 | Exactly the due cycles, in table order, each with its session's status at that moment |
| `TradingCycles.Service.HandleOne` | backend/src/trading-management/trading-management.service.ts:344-371 | One iteration completes the cycle whatever its status is by now and continues by the snapshot's session status, or marks it FAILED when something throws |
| `TradingCycles.Service.HandleCycleCompletion` | backend/src/trading-management/trading-management.service.ts:329-373 | With arbitrary requests before each iteration and any iterations that throw, the final tables are those of the interleaved run, and the pass ends empty |
| `HtmlEscape.ChainIsSinglePass` | backend/src/email/email.service.ts:198-205 | The five chained global replacements equal one pass with one entity per character, for every text |
| `HtmlEscape.EscapeIsSafeAndReversible` | backend/src/email/email.service.ts:198-205 | No angle bracket or quote survives, and unescaping gives the text back, for every text |
| `HtmlEscape.AmpersandMustComeFirst` | backend/src/email/email.service.ts:199-204 | Any replacement run before the one for the ampersand has its entity escaped again, and no longer unescapes to its character |

## Left out

- How a win is decided (forced results, presets, market session, price comparison): the outcome is an input of every settlement.
- `AdminTradingService` cancel and edit, `adminCreateTransaction`, operator edits and deletes of order logs: they change orders without the matching balance step; `UsersService.adjustBalance` appears as an outside delta.
- Binary floating point in order arithmetic: money is on its decimal grid and the win rate is rounded from the exact percentage.
- Isolation of the trade writes from each other beyond the two split reads (order row, user row): the three writes of one settlement are one step, and a turn of the sweep that throws has written nothing.
- Isolation of the release pass and of the find-then-update by which a deposit consumes its allocation: both are one step.
- The scheduled entry of the sweep and the flag that keeps two of them apart: sweeps may overlap anyway, because a separate endpoint starts one without it, and a sweep's settlements are ordinary events of every run.
- Market opening hours, prices, `isManaged` and the market session attached to an order.
- Trimming, QR codes, remarks, review notes and reviewer identities; currencies and networks outside the four and three the code knows.
- `updateWithdrawAddress`, all listing and paging queries, DTO validation beyond the bounds used here, HTTP, guards, logging, WebSocket.
- The risk checker's HTTP request: its verdict is an input of `SetRisk`.
- Deletion of users, with its cascades; funding records and orders always have their user.
- Several processes running the conversation lock at once, which an in-memory map does not cover; assigning is one step together with its system message.
- ChatCounters.Conversation.MarkAsRead: the conversation exists and the time of reading is not kept, because counters depend on neither; its two updates are one step, and so are a send and its counter update.
- Last-message fields of a conversation.
- Redis reconnects, instances that join or leave a running fleet, and closing all streams at shutdown.
- Which conversations an export selects, and the order in which the database returns them.
- `deleteSession`, which removes a session with its cycles, also those a pass holds: the pass then ends early at the missing row.
- Cycle prices, and a failure of the very update that marks a cycle FAILED, which ends the pass early.
- E-mail sending, reconnect limits of the market data feed, uploads, content pages and authentication.
