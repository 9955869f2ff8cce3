# A verified model of the payment switch

This project models the hard core of an instant-payment switch in Dafny and proves what it promises:
a saga that moves money between banks and compensates backwards when a step fails, a transactional
outbox with a relay, a net-settlement window, the ISO 20022 codec, two stores whose entries expire, a
subject-name parser and a query builder.

`dafny verify dfyconfig.toml` checks all of it.

## How it is built

| module | what it holds |
|---|---|
| `Sums`, `Domain` | finite sums; statuses, payments and time units |
| `Bank` | the account book as a value (`Apply`) and the object `BankState` that refines it |
| `Repository` | the payment and outbox tables as a value (`Transact`) and the object `PaymentRepo`, with every database call free to fail |
| `SagaCore` | the saga engine over arbitrary steps and an arbitrary world |
| `Steps` | the ten concrete steps as the remote calls they make, the wired pipeline, and `StepRunner`, which makes those calls on the bank and repository objects |
| `Interleaving` | any number of sagas over one bank and one repository, one call at a time, scheduled and failed by the environment |
| `Conservation` | money over every interleaving |
| `LoneRun`, `Leaking` | `Saga.Run` refines the interleaving machine with a single saga; all-or-nothing; the smallest failure that leaks |
| `Sequencing`, `Script`, `Healthy` | money-recording writes come directly after their bank calls; the calls of a saga one by one, and what each failure leads to; when a run succeeds |
| `Trails`, `Provenance` | persisted statuses over every interleaving; what events say about their origin |
| `Recovery`, `Sweep`, `SweepRounds` | compensation from the persisted status; one sweep; any number of sweeps, alone and after a failed run |
| `Deadlines`, `SweptMoney`, `SweptTrails` | runs and sweeps together: on one clock, on one account book, and in one table of statuses and events |
| `Relay`, `Flushing`, `Publication` | the outbox relay with any number of relays; one flush as it runs; one relay composed with the repository |
| `Settlement`, `Window` | netting in 64-bit arithmetic; the window under concurrent calls, and its ledger |
| `Amounts`, `Iso20022` | amounts through float64 with the rounding of section 4.3.1 of IEEE 754-2019, and by error bound alone; pacs.008 conversion |
| `Replay`, `Lookup` | replay check and cached lookup on one clock |
| `DistinguishedName` | the common name of an RFC 4514 subject |
| `Transactions` | the portal's WHERE clause with positional arguments, and its pages |

Code that updates state in place is a class whose methods are proved equal to a function on values; the
theorems are about those functions. A failure schedule (`Oracle`, or the `turn` of a scheduling
`Action`) decides for every single call whether it takes effect, whether its answer comes back, and at
what time, so statements "for every oracle" or "for every schedule" range over all placements of failures
and of lost answers.

### Where the code and its documentation disagree

The model follows the code in each case.

- README.md:131-133 says that all state transitions write an outbox event. `UpdateRoute` writes none
  (internal/orchestrator/db/payment_repo.go:212-219), so ROUTED is the one status without an event;
  `Repository.TransactKeepsAnnounced` and `Publication.FirstPublicationsFollowHistory` say exactly that.
- The `FromStatus` of an event is not the previous status: `UPDATE ... RETURNING` yields the new one
  (internal/orchestrator/db/sqlc/payment.sql.go:299-302), and a reservation always says VALIDATED. It is
  right exactly on a repeated ABORTED (`Provenance.EventOriginIff`,
  `SweptTrails.EventOriginIffWithSweeps`); other claims read `ToStatus` only.
- The comment at internal/orchestrator/saga/saga.go:83-85 intends the status-driven recovery for a saga
  that did not run in this process. The counter it tests is shared by all payments of the process.
  `Recovery.CompensatePaymentMatchesRollback` needs it to be 0, and `Recovery.ReservedIsRecoveredIff`
  gives the exact condition under which recovery of a reservation is right. `Sweep.CounterCases` says what
  each counter makes of a sweep: from 1 to 5 the hold is not given back, and is lost once the payment is closed
  (`SweepRounds.SmallCounterLosesHold`), above 6 the release waits for earlier ABORTED writes.
- "Failed steps trigger compensation" leaves out the failing step itself: a bank call that took effect
  right before a lost answer or an unconfirmed status write is not undone.
  `Leaking.LostMarkLeaks` is the smallest case; `LoneRun.LoneRunIsAllOrNothing` and
  `Conservation.FinishedTotalIsStartPlusLeaks` count these cases exactly, and
  `SweptMoney.FinishedTotalWithSweeps` what sweeps later make of them.
- Sweeps do not always release a reservation exactly once: a release followed by a failed ABORTED write is
  repeated, also after a rollback, and a refused release followed by a successful ABORTED write is never
  repeated. `SweepRounds.ReleasesAreCounted` and `SweepRounds.ReleasesOfRunAndSweeps` give the exact count.
- A date whose year has more than four digits does not survive the document
  (`Iso20022.DateRoundTrip`, `Iso20022.DocumentRoundTrip`), nor do some amounts from 100 * 2^45 + 2 minor
  units on, which come back one unit off: `Amounts.ReturnedIsShifted` and `Iso20022.DocumentRoundTripIff`
  say exactly which.
- The comment at cmd/gateway/main.go:303-305 promises not to split at escaped commas. A separator after a
  value that ends in a backslash is taken for an escaped comma (`DistinguishedName.FirstCommonName`,
  `DistinguishedName.BackslashHidesCommonName`).

## Model

| member | source | states |
|---|---|---|
| `Conservation.MoneyIsAccountedFor` | internal/banksvc/bank.go:78-133 | for every number of sagas and every interleaving and failure schedule: no balance is ever negative, and each balance, and the total, equals the start plus successful credits and releases minus successful reserves and reversals |
| `Conservation.FinishedTotalIsStartPlusLeaks` | internal/orchestrator/saga/steps.go:154-195 | once all sagas ended, the total differs from the start by exactly the leaks: per saga, a credit whose answer was lost, whose record was not confirmed or whose reversal did not take effect, minus the same for the hold; with none of those it equals the start |
| `Conservation.BalancesBounded` | internal/banksvc/bank.go:97-119 | over runs without sweeps no balance ever exceeds the starting total plus all valid amounts, so 64-bit balances cannot wrap when that sum fits |
| `Conservation.RunKeepsInv` | internal/orchestrator/saga/saga.go:32-81 | the joint invariant of program counters, call logs and account book holds after every schedule |
| `Conservation.EffectOnBook` | internal/banksvc/bank.go:78-133 | one call changes at most the account it names, by its signed amount, never removes an account and never makes a balance negative |
| `LoneRun.LoneRunIsAllOrNothing` | internal/orchestrator/saga/saga.go:32-81 | a lone run between distinct accounts, under every failure schedule: on success exactly the amount moved from source to destination and nothing else changed; on failure all balances are restored if and only if no bank call took effect unanswered, every money-recording write was confirmed and every compensating bank call took effect |
| `LoneRun.RunRefines` | internal/orchestrator/saga/saga.go:32-51 | Run of the wired pipeline makes exactly the moves of the interleaving machine with one saga |
| `LoneRun.RollbackRefines` | internal/orchestrator/saga/saga.go:77-81 | the rollback of k steps makes exactly the backward moves of the machine, whatever fails |
| `Leaking.LostMarkLeaks` | internal/orchestrator/saga/steps.go:154-165 | the smallest failure that leaks: every call succeeds but the reservation mark, which does not get through; whatever the rollback meets, the run fails with the source down by the amount, all other balances as they were, and the payment ABORTED or SCREENED, so that no sweep lists it |
| `Sequencing.WritesFollowTheirBankCalls` | internal/orchestrator/saga/steps.go:154-190 | in every interleaving each reservation mark and COMMITTED write, confirmed or not, comes directly after its own bank call was seen to succeed |
| `Sequencing.RunWritesFollowBankCalls` | internal/orchestrator/saga/steps.go:154-190 | the same for one Run under every failure schedule |
| `Script.EveryCallIsGrounded` | internal/orchestrator/saga/steps.go:21-253 | in every interleaving and whatever fails: each status write directly follows the seen success of its own service, check or bank call; no SCREENED write, bank call or success without the seen clearance of the compliance service; the first required call that is refused, lost or unanswered is followed by compensations only and the saga fails; validation passes exactly for filled-in fields; and the calls of a finished saga are exactly the listed ones, or those up to the first failure and then the listed rollback |
| `Script.RunIsGrounded` | internal/orchestrator/saga/saga.go:32-51 | the same for one Run under every failure schedule |
| `Healthy.RunSucceedsIffCovered` | internal/orchestrator/saga/steps.go:21-253 | with every required call answered, a run between distinct accounts succeeds if and only if the fields are filled in, the source covers the amount and the destination account exists, whatever becomes of the reconciliation record and the notifications |
| `Interleaving.CallKeepsProcInv` | internal/orchestrator/saga/steps.go:154-195 | every call of a saga, successful or not, keeps the balance between where it stands, what it moved and what it leaked |
| `Trails.StatusesFollowPipeline` | internal/orchestrator/saga/steps.go:21-257 | in every interleaving without sweeps the persisted statuses of each payment follow the pipeline order and then only ABORTED; a failed saga with one compensating write that took effect ends ABORTED; a failed validation leaves the status it began with, except that VALIDATED stays if only the answer to its write was lost |
| `Trails.RunStatusesFollowPipeline` | internal/orchestrator/saga/saga.go:32-81 | the same for one Run under every failure schedule |
| `Trails.EffectOnHistory` | internal/orchestrator/saga/steps.go:34-187 | one call appends at most its own status to its own payment's history and leaves all others alone |
| `Recovery.CompensatePaymentMatchesRollback` | internal/orchestrator/saga/saga.go:61-109 | with the counter at 0, for every prefix of the wired pipeline with or without settlement, CompensatePayment on the persisted payment leaves the same bank, tables and call log as Run's own rollback, or both meet an error |
| `Recovery.StepCountOfPrefix` | internal/orchestrator/saga/saga.go:86-109 | statusToStepCount inverts the pipeline: it gives the number of completed steps up to the last one that writes a status |
| `Recovery.ReservedIsRecoveredIff` | internal/orchestrator/saga/saga.go:61-75 | with calls that succeed, a RESERVED payment between distinct accounts is given exactly its hold back if and only if the shared counter is at most 0, or 6, or larger while the bank refuses the reversal at the destination; otherwise a larger counter debits the destination and a smaller positive one changes no balance |
| `Recovery.CompensationOnBook` | internal/orchestrator/saga/steps.go:169-195 | what compensating the first n steps does to the account book when every call gets through |
| `SweepRounds.ReleasesAreCounted` | internal/orchestrator/sweep/sweep.go:38-56 | over any number of sweeps of an abandoned reservation, each with its own shared counter, failures, locked rows and unloadable payments: it is released once for every due sweep, up to and including the first whose ABORTED write took effect, whose release took effect, and ends ABORTED if and only if there was such a write; so exactly once if and only if that count is 1 |
| `SweepRounds.ReleasedExactlyOnce` | internal/orchestrator/sweep/sweep.go:38-56 | if in every due sweep, with whatever counter, the release and an ABORTED write get through, it is released exactly once and ends ABORTED as soon as a sweep is due, and is untouched before |
| `SweepRounds.RefusedReleaseIsFinal` | internal/orchestrator/saga/steps.go:169-172 | with any counters: if the first due sweep closes the payment without releasing it, the hold is never given back, however many sweeps follow |
| `SweepRounds.SmallCounterLosesHold` | internal/orchestrator/saga/saga.go:61-75 | if the first due sweep meets a counter from 1 to 5 and its first call for the payment gets through, the payment ends ABORTED and its hold is never given back |
| `SweepRounds.FailedAbortWriteReleasesAgain` | internal/orchestrator/saga/steps.go:169-172 | the smallest input for the other failure: release through and ABORTED write lost, twice, gives the amount back twice |
| `SweepRounds.ReleasesOfRunAndSweeps` | internal/orchestrator/saga/saga.go:77-81 | a rollback of a reservation followed by sweeps: the rollback releases once if its release got through, and the sweeps release as counted exactly if all four ABORTED writes of the rollback failed, and not at all otherwise |
| `Sweep.RecoverHeld` | internal/orchestrator/saga/saga.go:61-75 | recovering one reservation with any shared counter and under every failure schedule: it is released at most once and closed exactly as the counter's depth, the release and the first ABORTED writes decide, and nothing else happens to it |
| `Sweep.CounterCases` | internal/orchestrator/saga/saga.go:61-75 | what each shared counter makes of a recovered reservation, failure by failure: at most 0 or 6, its own release and ABORTED write; 1 to 5, never released and closed by the first write; 7, or more without settlement, released once the commit step's ABORTED write is confirmed; more with settlement, once that of the settlement step is confirmed too; the first ABORTED write made closes it |
| `Sweep.CompensationOnlyTouches` | internal/orchestrator/saga/saga.go:61-75 | compensating one payment changes no other row, no expiry time and no immutable field, under every failure schedule |
| `Sweep.Sweeper.SweepOnce` | internal/orchestrator/sweep/sweep.go:38-56 | recovers the listed payments in order, skips those that cannot be loaded, drops errors, and does nothing if the query failed |
| `Deadlines.SweepSparesActiveRuns` | internal/gateway/handler.go:275-292 | on one clock, for every interleaving of runs and sweeps whose calls honour the 60 second limit: a sweep that lists a payment runs more than the 5 minute reservation time after its run started, and no later call of that run gets through or changes anything |
| `Deadlines.AbandonedPastDeadline` | internal/gateway/handler.go:275-292 | from any moment past the deadline of a run, the sweeps find its payment exactly as the sweep before left it, whatever all other runs do |
| `Deadlines.RecoveredPastDeadline` | internal/orchestrator/sweep/sweep.go:38-56 | a payment that its run left RESERVED at the deadline is released by the sweeps of the rest of every history exactly as often as counted, and ends ABORTED exactly if one of them closed it |
| `Deadlines.EveryReservationIsFound` | internal/orchestrator/db/sqlc/payment.sql.go:98-103 | over every history of runs and sweeps a RESERVED payment has an expiry, and a sweep that finds its row unlocked lists it exactly if that expiry has passed |
| `Deadlines.EffectOnRows` | internal/orchestrator/db/payment_repo.go:122-219 | one call changes at most the row of its own payment, never what it says about the payment itself, and its expiry only by a reachable reservation mark, to its time plus 5 minutes |
| `SweptMoney.MoneyIsAccountedForWithSweeps` | internal/orchestrator/sweep/sweep.go:38-56 | over every history of runs and sweeps, whatever fails and whatever the counter says: no balance is negative, and each equals the start plus what the calls of the runs and of the sweeps moved |
| `SweptMoney.FinishedTotalWithSweeps` | internal/orchestrator/saga/steps.go:154-195 | once all runs ended, the total is the start plus the leaks of the runs plus what the sweeps gave back minus what they took, so a release by a sweep makes up for a leak and a double release shows as a gain |
| `SweptMoney.BalancesBoundedWithSweeps` | internal/banksvc/bank.go:97-119 | over every history of runs and sweeps, however often a hold is released: no balance exceeds the starting total plus all valid amounts plus what the sweeps paid out, so 64-bit balances cannot wrap when that sum fits |
| `SweptTrails.StatusesFollowPipelineWithSweeps` | internal/orchestrator/sweep/sweep.go:38-56 | over every history of runs and sweeps on one clock that starts with no payment RESERVED: each payment's persisted statuses follow the pipeline order and then only ABORTED, whoever wrote it; a run that succeeded has written all of them and no sweep touched its payment, and a failed validation leaves what it left without sweeps |
| `SweptTrails.EventOriginIffWithSweeps` | internal/orchestrator/db/payment_repo.go:122-188 | over the same histories of received payments, each event of a call or of a sweep carries the true previous status if and only if it announces ABORTED for a payment already ABORTED; a sweep is a list of committed ABORTED writes of listed payments, of which the first of each payment tells a false origin and every later one a true one |
| `SweptTrails.SweepAborts` | internal/orchestrator/saga/steps.go:169-195 | whatever fails and whatever the counter, all that a sweep does to the tables is to commit ABORTED writes of payments on its list |
| `SagaCore.FailedRunTrace` | internal/orchestrator/saga/saga.go:32-51 | for any step list: if step k fails first, the calls are Execute 0..k and then Compensate k-1..0, each once, and the run fails |
| `SagaCore.RunSucceedsIff` | internal/orchestrator/saga/saga.go:32-51 | a run succeeds exactly when every step does, and then calls each Execute once and nothing else |
| `SagaCore.FailedRunRestores` | internal/orchestrator/saga/saga.go:77-81 | over steps whose Compensate inverts Execute and whose failing Execute changes nothing, a failed run restores the world |
| `SagaCore.StrictRollbackAgrees` | internal/orchestrator/saga/saga.go:69-81 | the stopping and the error-dropping rollback report alike, and without an error they do the same |
| `SagaCore.Saga.Run` | internal/orchestrator/saga/saga.go:32-51 | the loop with its `completed` slice computes the recursive meaning of a run; the counter ends as the index of the first failure or the number of steps |
| `SagaCore.Saga.RollbackCompleted` | internal/orchestrator/saga/saga.go:77-81 | the backward loop is the recursive rollback, world and calls |
| `SagaCore.Saga.CompensatePayment` | internal/orchestrator/saga/saga.go:61-75 | undoes the steps below the clamped counter, or below the status count if the counter is not positive, stopping at the first error |
| `Steps.StepRunner.Execute` | internal/orchestrator/saga/steps.go:21-253 | each Execute, made call by call on the bank and repository objects, has the effect, result and call log of the step's specification |
| `Steps.StepRunner.Compensate` | internal/orchestrator/saga/steps.go:41-257 | the same for each Compensate; refused bank calls are dropped and the ABORTED write decides the result |
| `Steps.StepRunner.Check` | internal/orchestrator/saga/steps.go:22-33 | validation succeeds exactly for a positive amount and non-empty BICs, accounts and currency, and touches nothing else |
| `Steps.StepRunner.CallBank` | internal/orchestrator/saga/steps.go:155-193 | each bank call goes to its own account with the payment's amount; it fails without effect if it does not get through or is refused, and with effect if only its answer is lost |
| `Bank.BankState.Reserve` | internal/banksvc/bank.go:78-95 | debits and records the hold exactly if the account exists and the balance covers the amount; otherwise no change |
| `Bank.BankState.ReleaseReservation` | internal/banksvc/bank.go:97-107 | gives the amount back and drops the account's one reservation exactly if the account exists |
| `Bank.BankState.Credit` | internal/banksvc/bank.go:109-119 | adds the amount and drops the account's reservation exactly if the account exists |
| `Bank.BankState.ReverseCredit` | internal/banksvc/bank.go:121-133 | debits exactly if the account exists and covers the amount; reservations stay |
| `Bank.BankState.AddAccount` | internal/banksvc/bank.go:37-45 | refuses a number that exists, otherwise adds it |
| `Bank.CompensationInverts` | internal/banksvc/bank.go:78-133 | releasing undoes reserving and reversing undoes crediting on all balances, and neither is refused right after |
| `Bank.ApplyMovesTotal` | internal/banksvc/bank.go:78-133 | an accepted operation moves the total by its signed amount, a refused one not at all |
| `Repository.TransactKeepsAnnounced` | internal/orchestrator/db/payment_repo.go:72-188 | whether a transaction commits or fails, a payment's outbox events stay equal to its committed statuses without ROUTED, in order |
| `Repository.LatestEventIsStatus` | internal/orchestrator/db/payment_repo.go:122-188 | the latest outbox event of a payment carries its current status unless that is ROUTED |
| `Repository.WrongInitialStatusMisannounces` | internal/orchestrator/db/payment_repo.go:72-120 | a payment created with any status but RECEIVED is announced wrongly, so the condition above is needed |
| `Provenance.EventOriginIff` | internal/orchestrator/db/sqlc/payment.sql.go:299-302 | in every interleaving of received payments without sweeps, the FromStatus of an update event is the true previous status if and only if the event repeats ABORTED |
| `Repository.UpdateExtendsHistory` | internal/orchestrator/db/payment_repo.go:122-219 | an update extends its own history by its status if it commits and touches no other row |
| `Repository.PaymentRepo.CreateWithEvent` | internal/orchestrator/db/payment_repo.go:72-120 | succeeds exactly if no database call fails, the id is new and no payment has the same source BIC and end-to-end id; then the row and one RECEIVED event are added, otherwise nothing |
| `Repository.OnePaymentPerInstruction` | migrations/postgres/0001_init.sql:18 | over every sequence of transactions, healthy or not, an instruction (source BIC and end-to-end id) has at most one payment and at most one creation event |
| `Repository.NewInstructionIsAccepted` | internal/orchestrator/db/payment_repo.go:72-120 | a healthy creation is refused only for a taken id or a repeated instruction, and then changes nothing |
| `Repository.PaymentRepo.UpdateStatus` | internal/orchestrator/db/payment_repo.go:122-143 | changes status and appends the event together or nothing; fails on any failed call or a missing row |
| `Repository.PaymentRepo.MarkReserved` | internal/orchestrator/db/payment_repo.go:145-170 | sets RESERVED, the expiry and the event together or nothing; a missing row is found only when the event is written |
| `Repository.PaymentRepo.UpdateRoute` | internal/orchestrator/db/payment_repo.go:212-219 | sets ROUTED without an event; a missing row is no error |
| `Repository.PaymentRepo.FindExpiredReservations` | internal/orchestrator/db/payment_repo.go:221-239 | lists exactly the RESERVED rows whose expiry lies before the given time and that no other transaction has locked, each once |
| `Relay.PublishedAtLeastOnceAtMostRetried` | pkg/outbox/relay.go:37-75 | over every run of any number of relays with failures anywhere: a PUBLISHED row was published, no row is published more than once plus the failed flushes that reached it, and batches under way are disjoint |
| `Relay.DrainsInCeilFlushes` | pkg/outbox/relay.go:44-47 | k complete flushes leave max(0, N - 500k) of N pending rows, so they drain exactly when k is at least ceil(N/500) |
| `Relay.StepKeepsInv` | pkg/outbox/relay.go:37-75 | every move keeps the balance between publications, failed flushes, flushes under way and marks, row by row |
| `Relay.Pending` | pkg/outbox/relay.go:44-47 | exactly the pending rows nobody has locked, in id order |
| `Publication.FirstPublicationsFollowHistory` | internal/orchestrator/db/payment_repo.go:72-188 | repository and relay in any interleaving, with outbox ids drawn before commit so that ids of different payments become visible out of order: a payment's first publications, by target status, are a prefix of its committed history without ROUTED, and its last outbox row is its current status unless ROUTED |
| `Publication.RelayKeepsOrder` | pkg/outbox/relay.go:52-75 | with one relay, each payment's rows are first published in id order and marked as a prefix, through every failure |
| `Publication.DrainedPublishesAll` | pkg/outbox/relay.go:37-75 | once no row is pending, the first publications of a payment are the whole of its committed history without ROUTED |
| `Publication.CommitTakesEffect` | internal/orchestrator/db/payment_repo.go:72-188 | a healthy transaction that the tables accept changes them and makes its event visible under the id it drew, in one move |
| `Publication.TwoRelaysReverseRows` | pkg/outbox/relay.go:44-47 | one relay is needed: while another transaction holds the lock of a payment's first row, a second relay publishes the payment's second row before it |
| `Flushing.OutboxRelay.FlushBatch` | pkg/outbox/relay.go:37-75 | the exact result of one flush: it publishes the rows it reads up to the first failing publish (and that one if only its answer was lost), marks them if and only if all of them were published, the update succeeded and the commit took effect, and returns nil if and only if that was reported too |
| `Flushing.OutboxRelay.Run` | pkg/outbox/relay.go:22-35 | the relay's loop: after k rounds in which nothing fails and with no new writes, max(0, N - 500k) of N pending rows are left |
| `Flushing.FlushIsRun` | pkg/outbox/relay.go:37-75 | one flush is a begin, publishes and a finish of the relay machine |
| `Flushing.CompleteFlush` | pkg/outbox/relay.go:67-74 | a successful flush that read all its rows leaves the outbox of the draining law |
| `Settlement.CalculateNetPositions` | internal/settlement/engine.go:98-123 | each BIC at most once, only named ones, only non-zero, with received minus sent in 64-bit arithmetic and the currency of its first entry; every BIC with a non-zero net is listed |
| `Settlement.NetMap` | internal/settlement/engine.go:99-104 | the in-place map holds exactly the named BICs with their wrapped nets |
| `Settlement.LabelOf` | internal/settlement/engine.go:109-115 | the inner loop finds the currency of the first entry that names the BIC, and none if no entry does |
| `Settlement.FirstCurrencyIs` | internal/settlement/engine.go:109-115 | the label of a position is the currency of the first entry that names its BIC |
| `Settlement.NoOverflow` | internal/settlement/engine.go:101-104 | if the absolute amounts sum below 2^63, no running total and no intermediate value overflows |
| `Settlement.PositionsSumToZero` | internal/settlement/engine.go:98-123 | such a batch has exact positions that sum to zero |
| `Settlement.PositionsSumToZeroModulo` | internal/settlement/engine.go:98-123 | the positions of every batch at all sum to zero in 64-bit arithmetic |
| `Settlement.NettingIgnoresOrder` | internal/settlement/engine.go:98-123 | permuting the entries, and any map iteration order, give the same BICs and amounts |
| `Settlement.OneCurrencyLabels` | internal/settlement/engine.go:109-118 | in a one-currency batch every position carries that currency |
| `Window.OneSettleTakesAllAccepted` | internal/settlement/engine.go:48-74 | for every interleaving of adds, background and explicit settles: at most one settle succeeds, its batch is exactly the accepted entries in order, and nothing is accepted afterwards |
| `Window.BatchIsAllAdds` | internal/settlement/engine.go:48-74 | read off the calls alone: the one batch is the list of the entries of all Add calls before the first call that closes the window, in order; until then the window holds all of them and has started one background settle per addition that found it full |
| `Window.DoubleEntry` | internal/settlement/engine.go:76-93 | per BIC, the debits and credits of a settle sum in 64-bit arithmetic to its single net row, or to zero without one, and exactly so below 2^63 |
| `Window.LedgerRows` | internal/settlement/engine.go:82-93 | row by row: a debit of the source and a credit of the destination with the payment's id for every entry in order, then one net row per position |
| `Window.SettlementWindow.Add` | internal/settlement/engine.go:48-63 | returns nil exactly while open, and then the entry is appended and one background settle is started exactly if the window is full; otherwise nothing changes |
| `Window.SettlementWindow.Settle` | internal/settlement/engine.go:65-96 | closes once, takes exactly the entries present as its batch, nets them and issues the ledger rows if a ledger is set; on a closed window it is an error that changes nothing |
| `Window.SettlementWindow.WriteLedger` | internal/settlement/engine.go:82-93 | issues a debit and a credit per entry and then one net row per position |
| `Iso20022.DocumentRoundTrip` | pkg/iso20022/convert.go:58-161 | FromPacs008 undoes ToPacs008 for every amount that the arithmetic carries (below 2^51 by the error bound, below 100 * 2^45 + 2 by nearest float64, up to 2^53 by IEEE 754 if its shift is 0), up to id, status and creation time cleared, an empty charge bearer read as SLEV and the date cut to its day; a five-digit year comes back as no date |
| `Iso20022.DocumentRoundTripIff` | pkg/iso20022/convert.go:58-161 | with IEEE 754 arithmetic, for every amount up to 2^53 in size and a date that survives: the whole document comes back if and only if the shift of its amount is 0, and otherwise the amount alone is one unit off |
| `Amounts.AmountRoundTrip` | pkg/iso20022/convert.go:30-36 | amounts below 2^51 survive if the one division and the one multiplication each have relative error at most 2^-53 |
| `Amounts.ErrorLimitIsSharp` | pkg/iso20022/convert.go:30-36 | one rounding within that error bound changes the amount 2^51, so 2^51 is the exact limit of the bound |
| `Amounts.Float64RoundTrip` | pkg/iso20022/convert.go:30-36 | if both operations deliver a nearest float64 value, with ties broken in any way, every amount below 100 * 2^45 + 2 survives |
| `Amounts.Float64LimitIsSharp` | pkg/iso20022/convert.go:30-36 | at 100 * 2^45 + 2 float64 arithmetic returns the next amount, however it breaks ties, so that is its exact limit |
| `Amounts.ReturnedIsShifted` | pkg/iso20022/convert.go:30-36 | what float64 arithmetic (nearest, ties to even) makes of every amount v with abs(v) at most 2^53, both signs: unchanged below 100 * 2^45; one more from there to 2^52 exactly if 32v mod 25 is in 13..16; unchanged to 100 * 2^46; above, with r = 16v mod 25, one more exactly if r is in 13..16, or 17 with v odd, and one less exactly if r is in 9..12, or 8 with v odd |
| `Iso20022.DateRoundTrip` | pkg/iso20022/convert.go:97-155 | a formatted existing date parses back to itself exactly if its year is below 10000 |
| `Iso20022.FromPacs008` | pkg/iso20022/convert.go:58-106 | reads any document: an error exactly without a transfer; otherwise the first transfer, a non-empty IBAN or BICFI before the other identification, the purpose before the category purpose, the date in either layout with the date-only one first, the zero time if neither fits |
| `Iso20022.ReadingIsUnique` | pkg/iso20022/convert.go:38-106 | for any document, written by this program or not, those rules determine the result completely |
| `Iso20022.ToPacs008` | pkg/iso20022/convert.go:108-161 | one transfer with the payment id as transaction id, a count of 1, clearing as settlement method, and a header that repeats its amount and date: the settlement date, else the creation date, else today |
| `Iso20022.CarriedIsStable` | pkg/iso20022/convert.go:58-161 | a second trip changes nothing more |
| `Replay.AcceptedAtMostOnce` | pkg/crypto/verify.go:28-40 | on a monotone clock, whatever the store held, whatever fails and however much other requests lag, the same participant, nonce and timestamp are accepted at most once if the first is checked before it is stored and SetNX of the second lags its check by less than 4 minutes |
| `Replay.AcceptedIff` | pkg/crypto/verify.go:28-40 | from an empty store and on a monotone clock, an in-window request whose store call does not fail is accepted if and only if no earlier request wrote the same nonce of the same participant less than 10 minutes before |
| `Replay.SameNonceIsSameKey` | pkg/crypto/verify.go:32 | two requests share a key if and only if participant, colon and nonce read the same, so for participants without a colon only if both agree |
| `Replay.LagLimitIsSharp` | pkg/crypto/verify.go:28-40 | a lag of exactly 4 minutes lets a replay through |
| `Replay.KeyStays` | pkg/crypto/verify.go:32 | an accepted key keeps at least its 10 minute life through any later requests |
| `Replay.NonceStore.CheckReplay` | pkg/crypto/verify.go:28-40 | verdict and store of one check, with the store's failure before or after its write |
| `Lookup.AnswersAreFresh` | internal/lookup/service.go:50-90 | over every interleaving of lookups, registrations, cache writes, expiry and eviction: each answer was the registered value less than 5 minutes plus the read-to-return gap earlier, and is the map's value if the BIC was not registered again in that span |
| `Lookup.RegistryFollowsCalls` | internal/lookup/service.go:86-90 | the registered values are those of the Register calls, and the map holds the last of them for each BIC, or what it started with |
| `Lookup.StepKeepsInv` | internal/lookup/service.go:50-90 | every move keeps the age bound of cached values, values in flight and answers given |
| `Lookup.Service.LookupBank` | internal/lookup/service.go:50-76 | answers from an unexpired cache entry, otherwise from the map, otherwise with an error; a value read from the map is cached for five minutes if the write succeeds; and it is a run of the machine |
| `Lookup.Service.RegisterBank` | internal/lookup/service.go:86-90 | puts the bank into the map under its BIC, replacing what was there, and leaves the cache alone |
| `DistinguishedName.ParseUndoesPrint` | cmd/gateway/main.go:306-316 | for any list of RDNs with arbitrary values, escaped as section 2.4 of RFC 4514 asks: the result is the text of the first CN whose predecessor does not end in a backslash, and exactly its value if and only if that ends in no space and needs no escape but for commas; no comma in another value yields a false CN, and without such a CN the subject comes back |
| `DistinguishedName.FirstCommonName` | cmd/gateway/main.go:306-316 | the first CN of a list is the one found if and only if the value before it does not end in a backslash |
| `DistinguishedName.BackslashHidesCommonName` | cmd/gateway/main.go:308-309 | the smallest loss: behind a value that ends in a backslash the only CN is not found |
| `DistinguishedName.ParseCN` | cmd/gateway/main.go:306-316 | the loop with its early return finds the first part that holds a common name |
| `DistinguishedName.SplitPrinted` | cmd/gateway/main.go:308-309 | masking and splitting a printed subject gives one part per RDN, except that a value ending in a backslash is joined with the next |
| `DistinguishedName.CommonNameOfGroup` | cmd/gateway/main.go:310-313 | one part yields a common name exactly if the RDN at its beginning is a CN |
| `DistinguishedName.SpaceIsIgnored` | cmd/gateway/main.go:310 | space around a part, as other printers write it, makes no difference to its common name |
| `Transactions.BuiltQueryAnswersFilter` | internal/portal/store/store.go:412-456 | for every filter and table, the built query returns the requested page of exactly the rows that meet all set fields, in order, and the count query sees exactly those rows |
| `Transactions.PagesConcatenate` | internal/portal/store/store.go:447-455 | pages 1..k of a fixed ordering concatenate to its first k pages' worth of rows without gap or overlap |
| `Transactions.PageArgumentsAreNeutral` | internal/portal/store/store.go:447-449 | appending the page arguments does not change what the clauses select |
| `Transactions.QueryBuilder.AddFilter` | internal/portal/store/store.go:414-417 | the closure narrows the selection by exactly its condition, bound to the argument it appends |
| `Transactions.QueryBuilder.Build` | internal/portal/store/store.go:412-456 | the clauses select exactly the wanted rows; limit and offset are bound to the last two arguments |

## Left out

- Steps.StepRunner.Execute: does not model the in-memory status, quote id, route fee and route time of the payment object; claims about status are on the repository.
- Bank.BankState.Reserve: balances are unbounded integers, because `Conservation.BalancesBounded` and, with sweeps, `SweptMoney.BalancesBoundedWithSweeps` show when 64-bit ones agree; the creation time of a reservation and account fields other than the balance are not modelled.
- Steps.StepRunner.CallBank: all banks are one account book, so the BIC of a call is not used to choose a bank.
- Repository.PaymentRepo.CreateWithEvent: payload, topic and key of an event other than payment id and statuses, and optional payment columns, are not modelled.
- Publication.RelayKeepsOrder: a flush that fails frees its locks at once; a broken connection whose locks linger, so that the next flush skips those rows, is not modelled. It acts as a second relay, for which `Publication.TwoRelaysReverseRows` shows that the order is lost.
- Publication.FirstPublicationsFollowHistory: the same holds for lingering locks; and the transactions of one payment follow one another, as its row lock enforces; two attempts to create the same payment at once are not modelled.
- Sweep.Sweeper.SweepOnce: the list, the load and the compensations of one sweep are one move relative to the calls of running sagas; `Deadlines.SweepSparesActiveRuns` shows that the run of a swept payment does not act meanwhile.
- SweptTrails.StatusesFollowPipelineWithSweeps: a run that starts on a payment already RESERVED is not covered; the gateway starts runs on payments it has just created as RECEIVED (internal/gateway/handler.go:780).
- Deadlines.SweepSparesActiveRuns: assumes that a call past its context deadline does not take effect, and one clock for the gateway and the database.
- Settlement.CalculateNetPositions: the commit time of an entry is not modelled.
- Window.SettlementWindow.Settle: ledger writes are issued, and errors of single writes, which the code drops, are not modelled; the gRPC server that ignores the error of Add (internal/settlement/grpc.go:21-28) is left out, so claims are on Add's own result.
- Iso20022.DocumentRoundTrip: XML text, time zones, the second date layout (the parameter `stamp`) and dates before year 0 are not modelled.
- Amounts.ReturnedIsShifted: amounts beyond 2^53, whose conversion to float64 can itself round, are not modelled.
- Script.EveryCallIsGrounded: a service that refuses and one that cannot be reached are the same failed call; the reasons in their answers are not modelled.
- Lookup.Service.LookupBank: concurrent lookups are in the machine `Lookup.Step`; the object makes one lookup at a time. JSON in the cache is taken as the value itself.
- Transactions.QueryBuilder.Build: clauses are templates with a placeholder number instead of SQL text; rows with equal creation time have the order the table has, which the database does not promise between queries.
- DistinguishedName.ParseUndoesPrint: multi-valued RDNs, and hexadecimal escapes other than that of NUL, are not modelled.
- The mock bank of internal/orchestrator/saga/bank.go, which never debits the source.
- HTTP, gRPC, Kafka, Redis, Scylla and Postgres drivers; the lookup, routing, quoting, screening, settlement, reconciliation and notification calls of the saga are oracles that succeed or fail.
- The pacs.002 status report and its callback, signatures, certificates and hashing.
- The portal's user interface, login, roles and middleware, and the event consumer.
