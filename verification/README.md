# Trading workers: a verified model

This project models the state-changing core of the trading workers and proves what the code is relied on for.

- **Fill ledger** (`ScaledDecimal`, `PositionBook`, `Orders`, `FillLedger`, `FillIdentity`, `FillRuns`, `BookRuns`,
  `AverageFillPrice`, `UnmatchedProgress`, `ExecutionPersistence`, `FillOutbox`). The tracker turns broker executions into
  order, fill, position-book, unmatched and outbox rows with fixed-point arithmetic. The tables are a value (`Ledger`) with one function
  per transaction; `ExecutionPersistenceService` and `FillOutboxService` update them in place, step by step, and are proved to
  have exactly that effect. Quantities (scale 8) and prices (scale 6) are exact scaled integers; `ScaledDecimal` relates them
  to the decimal strings the columns hold. `None` in `DecimalToScaled` is text that is not a plain numeral.
- **Order lifecycle** (`OrderProtocol`, `OrderAnswers`, `OrderWorkers`). A transition system over the shared order rows with
  any number of place and cancel workers, the tracker's fills, and a back end that moves CREATED to REQUESTED and any open order to
  CANCEL_REQUESTED at any time. Locks are not relied on. The sequential workers are proved to be runs of it.
- **Leases and chains** (`Leases`, `LeasedUpdates`, `AccountChains`, `PartitionLocks`). SET NX with a time to live,
  compare-and-delete and compare-and-renew over expiring entries; critical sections under such a lease, for any object and
  any merge; the in-process promise chain of one account.
- **Chart archive** (`CandleRows`, `KrxCalendar`, `CalendarDates`, `SessionRows`, `ChartArchive`, `ArchiveManifests`,
  `ChartArchiveWriter`, `ConcurrentArchive`, `ConcurrentRebuilds`). Day objects of minute rows, the 1h and 1d objects kept up to
  date from them, and the statuses decided by counting rows against the trading calendar; first one writer at a time, and then
  day writers and rebuilds at work together. Buckets are milliseconds; days are numbered from 1970-01-01 and dates are derived
  from them, and `CalendarDates` checks both against the weekday and the leap rule.
- **Token buckets** (`TokenRefill`, `RateLimiter`, `Reconfigurations`, `SharedLimiter`). The local limiter, and the Redis
  scripts over keys that expire, against a bucket that never does. Token counts are exact reals.
- **Smaller pieces**. The streaming candle builder (`CandleBuilder`), canonical JSON (`CodeUnits`, `JsonNumbers`, `Jcs`,
  `JcsDecoding`, `JcsReading`, the last with a JSON reader of its own) and rendezvous sharding (`Sharding`). `Wrappers`, `IntSets`, `KstTime` and `Truncation` are helpers.

Each state change is a function on values and, where the source updates fields in place, also a method of a class proved
against it; the results over whole runs are lemmas about those functions.

What the code does not give, stated with the exact condition where there is one:

- A manual buy without a requesting user violates the unique key of the position books when the account has its own book
  (`schema/phase-3-live-hardening.sql`). The transaction aborts, and a retry sweep that meets such a row stops there,
  so one at the head of the query starves the others (`FillRuns.ConflictExactlyWhen`, `UnmatchedProgress.StuckRow`,
  `ExecutionPersistence.HeadStarves`).
- An execution delivered without an id gets one from its order, time, quantity and price: two executions that agree in all of
  them count as one, and with a colon in an account or order number others can (`FillIdentity.SameIdExactlyWhen`,
  `FillIdentity.ColonsCollide`).
- The broker answer defaults a missing order number to the empty string. Such an acknowledgement is stored as a blank handle,
  which the cancel worker reads as none: the order is closed as cancelled without a cancel call. An order closed unsent had been
  acknowledged by the last look exactly in that case (`OrderProtocol.BlankAckClosesUnsent`, `OrderProtocol.AckedCloseExactlyWhen`).
- The wait of the cancel worker narrows but does not close the race with the place worker: the broker may hold an order closed
  unsent exactly when it was asked for it and has not refused, or the claimed worker has not called yet
  (`OrderProtocol.UnsentCloseExactlyWhen`, `OrderProtocol.LastLookExactlyWhen`, `OrderProtocol.TakenOrderExactlyWhen`,
  `OrderProtocol.LateAckLeftAtBroker`).
- When the calendar must come from the database and lacks a day, a day after it in the month or year is stored READY and the
  1h or 1d object stays without it (`ChartArchive.AllReadyDerivedExactlyWhen`, `ChartArchive.UnansweredDayIsLost`).
- A rebuild reads day objects without their locks: it sets an aggregate back exactly when a day it read is rewritten with another
  row in some coarser bucket before it writes (`ConcurrentRebuilds.RebuildExactlyWhen`, `ConcurrentRebuilds.RebuildSetsBack`).
- A day is READY by count, so on an early-close day bars after the close stand in for missing ones; a session that closes
  after 15:20 is never READY. READY means complete exactly for the closes `SessionRows.WhenReadyMeansComplete` names.
- Critical sections exclude each other and lose no update exactly when they are shorter than their lease
  (`LeasedUpdates.ExcludesExactlyWhen`, `LeasedUpdates.LosesNothingExactlyWhen`, `PartitionLocks.WritesKeptExactlyWhen`);
  nothing in the code bounds them.
- Two processes can both hold a fresh confirmation of a key exactly when a process overlaps its own refreshes of it
  (`Leases.OneOwnerExactlyWhen`); the refresh timer does not wait for a slow refresh.
- The window bound of the shared bucket holds exactly when rate * ttl covers the capacity and no reading goes back; the readings
  are those of the calling processes (`SharedLimiter.WindowsBoundedExactlyWhen`, `SharedLimiter.ExpiryInvisibleExactlyWhen`).
  That of the local bucket fails exactly for a capacity of 2 or more under a clock that goes back by more than the time in which
  one token accrues (`RateLimiter.WindowsBoundedExactlyWhen`).
- The minute floor rounds times before 1970-01-01 KST up (`CandleBuilder.BucketContainsExactlyWhen`).

## Model

| member | source | states |
|---|---|---|
| ScaledDecimal.ParseUndoesPrint | src/roles/tracker/service/execution-persistence.service.ts:755-778 | parsing the printed form of any integer at any scale gives the integer back |
| ScaledDecimal.PrintUndoesParse | src/roles/tracker/service/execution-persistence.service.ts:755-778 | printing what was parsed gives the numeral back for every canonical numeral with at most `scale` decimals |
| ScaledDecimal.PrintIsCanonical | src/roles/tracker/service/execution-persistence.service.ts:769-778 | every printed value is a canonical numeral: no superfluous zero, no negative zero |
| ScaledDecimal.ParseTruncates | src/roles/tracker/service/execution-persistence.service.ts:755-767 | parsing any plain numeral gives its exact value scaled up and truncated toward zero |
| ScaledDecimal.MultiplyIsFloor | src/roles/tracker/service/execution-persistence.service.ts:780-791 | at any scales the product of nonnegative operands is their exact product at the output scale rounded down |
| ScaledDecimal.DivideIsFloor | src/roles/tracker/service/execution-persistence.service.ts:793-804 | at any scales the quotient of nonnegative operands is the exact quotient at the output scale rounded down |
| ScaledDecimal.AmountIsFloor | src/roles/tracker/service/execution-persistence.service.ts:780-791 | for nonnegative operands the amount of a fill is quantity times price rounded down by less than one unit |
| ScaledDecimal.AverageIsFloor | src/roles/tracker/service/execution-persistence.service.ts:793-804 | for a nonnegative amount and a positive quantity the average is the exact quotient rounded down by less than one unit |
| PositionBook.TradeKeepsBook | src/roles/tracker/service/execution-persistence.service.ts:671-717 | every buy or sell keeps a book nonnegative, at zero cost and average when empty, and its average at floor(cost * 10^8 / quantity) |
| PositionBook.ReplayKeepsBook | src/roles/tracker/service/execution-persistence.service.ts:633-718 | the same over every sequence of trades from an empty book |
| PositionBook.PartialSellCost | src/roles/tracker/service/execution-persistence.service.ts:679-684 | on a partial sell the clamp of the cost at zero never acts |
| PositionBook.SellAverage | src/roles/tracker/service/execution-persistence.service.ts:679-685 | a partial sell of f from q never lowers the average a, and the new average n satisfies n * (q - f) < a * (q - f) + q + 10^8 |
| PositionBook.ReplayQuantity | src/roles/tracker/service/execution-persistence.service.ts:675-678 | the clamped quantity in closed form: bought minus sold plus the deepest oversell so far |
| PositionBook.CostWithinBought | src/roles/tracker/service/execution-persistence.service.ts:679-684 | the cost on a book is never more than what was paid in |
| PositionBook.BuysAdd | src/roles/tracker/service/execution-persistence.service.ts:675-684 | buys after any history add exactly what they bought and paid |
| FillLedger.FindOrder | src/roles/tracker/service/execution-persistence.service.ts:442-466 | a fill goes to the matching order with the highest id, and to none only when none matches |
| FillIdentity.FoundExactlyWhen | src/roles/tracker/service/execution-persistence.service.ts:442-466 | an execution goes to the highest id among the orders of its account that carry its order number in a handle, or its client id when it has no number; a number of white space is none |
| FillIdentity.OutboxKeyIsUnique | src/roles/tracker/service/execution-persistence.service.ts:166-192 | an outbox row is added exactly when its provider, environment and id are new together |
| FillIdentity.SameIdExactlyWhen | src/roles/tracker/service/execution-persistence.service.ts:576-586 | executions without an id of their own get one id exactly when they are of one order at one time, quantity and price, when accounts and order numbers hold no colon |
| FillIdentity.ColonsCollide | src/roles/tracker/service/execution-persistence.service.ts:576-586 | with a colon in the account or the order number, executions of different orders get one id |
| Orders.AppliedFill | src/roles/tracker/service/execution-persistence.service.ts:468-566 | an execution applies to an order exactly when it is well formed and the order has room; then the order takes what fits, becomes FILLED if and only if that completes it and it had not been closed otherwise, an unfinished cancel keeps its state and any other status becomes PARTIALLY_FILLED; handles, client id and acceptance time are set once, the fill time by the completing fill |
| Orders.AppliedAmount | src/roles/tracker/service/execution-persistence.service.ts:485-500 | the amount column grows by the amount of what was applied, from its value or, without one, from quantity times average price, and the average is that sum over the filled quantity |
| FillRuns.AggregateCredits | src/roles/tracker/service/execution-persistence.service.ts:468-526 | an order whose totals are the sums over its fill rows still agrees after one more fill, with filled + remaining = ordered |
| FillRuns.CreditedExactlyWhen | src/roles/tracker/service/execution-persistence.service.ts:60-230 | a delivery is credited if and only if it is a first, well-formed delivery for an order of its side with room left and no unique violation of the position book undoes it; the transaction aborts exactly in that last case |
| FillRuns.ConflictExactlyWhen | src/roles/tracker/service/execution-persistence.service.ts:661-715 | the position book insert violates its unique key exactly for a manual buy without a requesting user when the account already has its own book |
| FillRuns.DeliveryEffect | src/roles/tracker/service/execution-persistence.service.ts:60-230 | a delivery that is not credited changes no order, fill, outbox row or book; a credited one adds exactly one fill row and one outbox row |
| FillRuns.CreditWrites | src/roles/tracker/service/execution-persistence.service.ts:127-198 | a credited delivery fills the one order it matches, and writes its fill row and its unpublished outbox row with the quantity that fitted, all other columns as the execution and the order say |
| BookRuns.FillMovesOneBook | src/roles/tracker/service/execution-persistence.service.ts:633-718 | a fill moves the book its order names and no other: that of the strategy, else of the requesting user, else of the account, with a sale by a user without a book taken from the account |
| BookRuns.BooksAreReplays | src/roles/tracker/service/execution-persistence.service.ts:633-747 | over every run, each book is exactly the replay of the credited fills that went to it, in credit order, and there is a book just where some fill went |
| BookRuns.BooksFromStart | src/roles/tracker/service/execution-persistence.service.ts:633-747 | every book of a run from the empty ledger holds what its fills bought less what they sold, plus the deepest oversell, at no more than what they paid |
| FillRuns.RedeliveryIsInert | src/roles/tracker/service/execution-persistence.service.ts:118-161 | delivering a credited execution again, at any time, credits and moves nothing |
| FillRuns.IngestKeepsLedger | src/roles/tracker/service/execution-persistence.service.ts:60-230 | one delivery keeps the whole ledger consistent |
| FillRuns.RetryKeepsLedger | src/roles/tracker/service/execution-persistence.service.ts:246-267 | one retry of a pending unmatched fill keeps the whole ledger consistent |
| FillRuns.RunKeepsLedger | src/roles/tracker/service/execution-persistence.service.ts:60-271 | over every run of deliveries, retries and other writers: filled quantity and amount are the sums over the fill rows, 0 <= filled <= ordered, filled + remaining = ordered once a fill applied, ids unique, books consistent |
| FillRuns.CreditedExactlyOnce | src/roles/tracker/service/execution-persistence.service.ts:127-161 | a run credits an execution id once if its fill row appears during the run, and never otherwise |
| AverageFillPrice.AverageBetweenPrices | src/roles/tracker/service/execution-persistence.service.ts:494-500 | the stored average is at most the highest price paid, short of the lowest by no more than the rounding of its fills, and between the two for whole shares |
| UnmatchedProgress.RetryProgress | src/roles/tracker/service/execution-persistence.service.ts:246-267 | a completed retry settles its row or uses up an attempt; only an aborted one leaves everything as it was |
| UnmatchedProgress.RetriesArePaidFor | src/roles/tracker/service/execution-persistence.service.ts:232-271 | in any run the completed retries are bounded by the pending work at the start and the deliveries that added to it |
| UnmatchedProgress.PendingLeaves | src/roles/tracker/service/execution-persistence.service.ts:256-267 | a pending fill is retried fewer times than the maximum, and a settled one never changes again |
| UnmatchedProgress.ResolvedHasFill | src/roles/tracker/service/execution-persistence.service.ts:250-253 | in every run a fill marked resolved has a fill row with its id |
| UnmatchedProgress.DeliveryReports | src/roles/tracker/service/execution-persistence.service.ts:60-230 | every delivery answers for the first that holds: no order, the wrong side, a malformed execution, no room left, a known id, a unique violation; else that it was credited, with a closed order or a missing book as what stands out |
| UnmatchedProgress.RetryOutcome | src/roles/tracker/service/execution-persistence.service.ts:246-267 | told from the tables it read: a completed retry gives up at once on a fill of the wrong side or a malformed one, puts off one that no order takes yet by exactly the delay until its attempts are used up, and resolves any other |
| UnmatchedProgress.RetriesSpaced | src/roles/tracker/service/execution-persistence.service.ts:426-439 | in any run each retry of a row puts off the next one by at least the delay |
| UnmatchedProgress.DeliveryStores | src/roles/tracker/service/execution-persistence.service.ts:74-118 | a delivery keeps a fill for later exactly when its order is not there, dead-letters one of the wrong side, a malformed one and a credited sale from no book, and stores nothing else |
| UnmatchedProgress.StuckRow | src/roles/tracker/service/execution-persistence.service.ts:702-715 | a run from the empty ledger that leaves a pending fill whose every retry, once due, is aborted by the book of its account |
| ExecutionPersistence.ExecutionPersistenceService.SaveUnmatchedFill | src/roles/tracker/service/execution-persistence.service.ts:594-622 | inserts the unmatched fill unless its id is there |
| ExecutionPersistence.ExecutionPersistenceService.IngestExecutionFill | src/roles/tracker/service/execution-persistence.service.ts:60-230 | writes every table of the transaction as the ledger specification says, or none on a unique violation |
| ExecutionPersistence.ExecutionPersistenceService.SettleUnmatched | src/roles/tracker/service/execution-persistence.service.ts:395-439 | writes the outcome of a retry to the row with that id and to no other |
| ExecutionPersistence.ExecutionPersistenceService.RetryOne | src/roles/tracker/service/execution-persistence.service.ts:246-267 | one row of a sweep is the retry of the specification, worked from the row the query read |
| ExecutionPersistence.ExecutionPersistenceService.RetryUnmatchedFills | src/roles/tracker/service/execution-persistence.service.ts:232-271 | a sweep retries the due picked rows in order and reports the counts of what happened; the first unique violation stops it at its row with the earlier ones done and the later ones untouched |
| ExecutionPersistence.SweepFindsDue | src/roles/tracker/service/execution-persistence.service.ts:237-242 | a sweep with room for one row reaches a due row whenever there is one |
| ExecutionPersistence.HeadStarves | src/roles/tracker/service/execution-persistence.service.ts:237-249 | a blocked fill at the head of the query ends every sweep before anything is done: until something else changes the ledger no other fill is retried, settled or deferred |
| FillOutbox.BackoffMonotone | src/roles/tracker/service/execution-persistence.service.ts:814-819 | the delay after a failure is positive, nondecreasing in the attempts and capped |
| FillOutbox.BackoffDoubles | src/roles/tracker/service/execution-persistence.service.ts:814-819 | the first delay is the base, each of the next six failures doubles it until the cap, and later ones change nothing |
| FillOutbox.LeavesOnlyPublished | src/roles/tracker/service/execution-persistence.service.ts:277-367 | in every interleaving of publishers a row leaves the outbox only after a successful publish on each of its two channels, and no mark is ever cleared |
| FillOutbox.NextHonest | src/roles/tracker/service/execution-persistence.service.ts:327-367 | every mark stands for a publish that succeeded, and a step keeps the marks and the identity of every row |
| FillOutbox.FlushedRowLeaves | src/roles/tracker/service/execution.service.ts:89-110 | a flushed row leaves the outbox exactly when the channels it still needed both delivered |
| FillOutbox.FlushIsRun | src/roles/tracker/service/execution.service.ts:89-126 | one flush of a row is a run of the interleaved system: its channels in turn up to the first failure, with the publishes that went through and no others |
| FillOutbox.ClaimableFresh | src/roles/tracker/service/execution-persistence.service.ts:277-303 | a row with both marks is never claimed, and one never claimed nor failed may be at any time |
| FillOutbox.ClaimableAfterClaim | src/roles/tracker/service/execution-persistence.service.ts:280-303 | after a claim a row can be claimed again exactly when more than the time to live of the claim has passed |
| FillOutbox.ClaimableAfterFailure | src/roles/tracker/service/execution-persistence.service.ts:341-357 | after a failure a row still to be published can be claimed exactly when the delay has passed, whoever held it |
| FillOutbox.ClaimableAfterRelease | src/roles/tracker/service/execution-persistence.service.ts:359-367 | a released row still to be published can be claimed at once |
| FillOutbox.FillOutboxService.FindPendingOutbox | src/roles/tracker/service/execution-persistence.service.ts:277-325 | claims exactly the eligible rows, oldest first, up to the limit, and changes no other row |
| FillOutbox.FillOutboxService.PublishChannel | src/roles/tracker/service/execution.service.ts:128-174 | a successful publish marks its channel; a failure counts an attempt, drops the claim and backs off |
| FillOutbox.FillOutboxService.FlushOne | src/roles/tracker/service/execution.service.ts:94-106 | the channels still needed in turn, stopping at the first failure; the claim goes when both went through |
| FillOutbox.FillOutboxService.FlushFillOutbox | src/roles/tracker/service/execution.service.ts:89-110 | every claimed row comes out as one flush of it and the counts are those of the rows that left and stayed |
| OrderProtocol.TerminalAbsorbs | src/roles/executor/usecase/pickup-requested-orders.usecase.ts:109-205 | in every interleaving FILLED, CANCELLED, REJECTED, FAILED and EXPIRED are absorbing, and no order loses its handle or filled quantity |
| OrderProtocol.FillRowStep | src/roles/tracker/service/execution-persistence.service.ts:528-547 | a fill never moves an order out of a terminal state nor back to the request, nor takes a handle or quantity away |
| OrderProtocol.FillEffect | src/roles/tracker/service/execution-persistence.service.ts:85-118 | an execution of the wrong side, a malformed one or one for an order without room leaves the order as it is; any other does to it what Orders.AppliedFill says |
| OrderProtocol.PlacedAtMostOnce | src/roles/executor/usecase/pickup-requested-orders.usecase.ts:101-164 | in every run the broker is asked to place an order at most once, and only after it was claimed |
| OrderProtocol.FilledInFull | src/roles/tracker/service/execution-persistence.service.ts:537-546 | in every reachable state an order is FILLED if and only if its whole quantity is filled and it was not closed otherwise; none filled in full is still open |
| OrderProtocol.UnplacedCloseSawNoAck | src/roles/executor/usecase/pickup-cancelling-orders.usecase.ts:83-106 | when a cancel worker whose last look found no handle can close its order unsent, no acknowledgement, blank or not, had been written by that look |
| OrderProtocol.AckedCloseExactlyWhen | src/roles/executor/usecase/pickup-cancelling-orders.usecase.ts:83-106 | an order about to be closed unsent had its acknowledgement written by the last look if and only if that look found a blank handle, in every run whose executions carry an order number |
| OrderProtocol.BlankAckClosesUnsent | src/external/brokerage/platforms/kiwoom/kiwoom-brokerage.vendor.ts:2009 | an acknowledgement without an order number is stored as a blank handle; every requested order can then be closed as cancelled without a cancel call though its acknowledgement was written before the first look |
| OrderProtocol.UnsentCloseExactlyWhen | src/roles/executor/usecase/pickup-cancelling-orders.usecase.ts:89-106 | in every reachable state, the broker may hold the order that an unsent close marks CANCELLED, then or later, if and only if it was asked to place it and has not refused, or a place worker that claimed it has not called yet |
| OrderProtocol.LastLookExactlyWhen | src/roles/executor/usecase/pickup-cancelling-orders.usecase.ts:196-208 | the same condition decides while the cancel worker is still polling: some continuation closes the order unsent and leaves it possibly at the broker if and only if it holds |
| OrderProtocol.TakenOrderExactlyWhen | src/roles/executor/usecase/pickup-cancelling-orders.usecase.ts:89-106 | the broker takes an order closed unsent in some continuation, or has taken it, if and only if it has answered so or the place worker is between its claim and the answer |
| OrderProtocol.LateAckLeftAtBroker | src/roles/executor/usecase/pickup-requested-orders.usecase.ts:118-164 | every requested order can go that way: the broker takes it, its acknowledgement is written after the last look, and it ends CANCELLED with no cancel call and no handle |
| OrderProtocol.InFlightMayReach | src/roles/executor/usecase/pickup-requested-orders.usecase.ts:109-164 | the first condition holds whenever the place worker of the order is between its claim and the end of dealing with an acknowledgement |
| OrderProtocol.RunUnreached | src/roles/executor/usecase/pickup-requested-orders.usecase.ts:101-164 | once an order is past the request and the first condition is false, no continuation ever asks the broker to place it |
| OrderProtocol.ClosedTakesNoAck | src/shared/persistence/order/order.repository.impl.ts:165-190 | a closed row takes no acknowledgement, so the order left at the broker keeps no handle to cancel it by |
| OrderProtocol.LateAckAttaches | src/roles/executor/usecase/pickup-requested-orders.usecase.ts:143-158 | an acknowledgement that finds its row in a cancel state attaches its handle and leaves the status alone |
| OrderAnswers.PlaceAnswerDecides | src/roles/executor/usecase/pickup-requested-orders.usecase.ts:109-205 | an answered place call makes a submitting order ACCEPTED with the number of the broker, REJECTED on a refusal and FAILED on an error; an order taken away meanwhile is not moved by a refusal or an error |
| OrderAnswers.UnsentFails | src/roles/executor/usecase/pickup-requested-orders.usecase.ts:109-141 | a request that could not be sent fails its order and asks the broker nothing |
| OrderAnswers.CancelAnswerDecides | src/roles/executor/usecase/pickup-cancelling-orders.usecase.ts:108-194 | an answered cancel call closes the order as CANCELLED, or FAILED on an error, while the cancel still has it |
| OrderAnswers.LookDecides | src/roles/executor/usecase/pickup-cancelling-orders.usecase.ts:196-208 | a look of a waiting cancel worker moves no row: it goes on to call the broker with the first handle when that is not blank, and without one stops waiting exactly when the row has left the claim |
| OrderAnswers.RejectedWasRefused | src/roles/executor/usecase/pickup-requested-orders.usecase.ts:166-205 | in every reachable state a claimed order is REJECTED only if the broker refused it |
| OrderWorkers.OrderTable.ClaimById | src/shared/persistence/order/order.repository.impl.ts:32-57 | claims a row exactly from the status a pickup drains, and hands it out only then |
| OrderWorkers.OrderTable.UpdateStatusFromExpected | src/shared/persistence/order/order.repository.impl.ts:150-163 | the write happens exactly from the expected status |
| OrderWorkers.OrderTable.AttachBrokerOrderIdFromExpected | src/shared/persistence/order/order.repository.impl.ts:165-190 | attaches a handle, and says so, exactly when it is not blank and the row is in a claim state without one |
| OrderWorkers.OrderTable.PlaceClaimedOrder | src/roles/executor/usecase/pickup-requested-orders.usecase.ts:109-205 | one place worker: the resulting row for every answer, and one broker call exactly when it got as far |
| OrderWorkers.OrderTable.CancelClaimedOrder | src/roles/executor/usecase/pickup-cancelling-orders.usecase.ts:83-194 | one cancel worker: the resulting row for every answer, and one broker call exactly when it had a handle |
| OrderWorkers.PlaceIsProtocol | src/roles/executor/usecase/pickup-requested-orders.usecase.ts:109-205 | the sequential place worker is a run of the place worker of the transition system |
| OrderWorkers.CancelIsProtocol | src/roles/executor/usecase/pickup-cancelling-orders.usecase.ts:83-194 | the sequential cancel worker is a run of the cancel worker of the transition system |
| OrderWorkers.WaitForBrokerHandle | src/roles/executor/usecase/pickup-cancelling-orders.usecase.ts:196-208 | the poll returns a handle exactly when some look sees one before a look finds the claim gone or the deadline ends it |
| Leases.LeaseStore.TrySet | src/roles/executor/usecase/pickup-requested-orders.usecase.ts:337-345 | SET NX with a time to live: granted exactly when no unexpired lease is there |
| Leases.LeaseStore.Release | src/roles/executor/usecase/pickup-requested-orders.usecase.ts:42-47 | compare-and-delete: only the live lease of that owner goes |
| Leases.LeaseStore.Renew | src/roles/tracker/service/tracker-ws-ownership.service.ts:35-40 | compare-and-renew: only the live lease of that owner is extended |
| Leases.AcquireBefore | src/roles/executor/usecase/pickup-requested-orders.usecase.ts:339-354 | the waiting loop acquires at the first grant and gives up only at a refusal past the deadline |
| Leases.OneFreshOwner | src/roles/tracker/service/tracker-ws-ownership.service.ts:110-153 | however the commands of the refreshes interleave, two processes never both hold a confirmation of one key younger than the time to live, if no process overlaps its own refreshes of the key |
| Leases.RunBacked | src/roles/tracker/service/tracker-ws-ownership.service.ts:130-150 | in every such interleaving a confirmation younger than the time to live is backed by the stored lease |
| Leases.OneOwnerExactlyWhen | src/roles/tracker/service/tracker-ws-ownership.service.ts:71-80 | fresh confirmations are of one process in every run if and only if no process has two refreshes of a key in flight |
| Leases.RefreshAlone | src/roles/tracker/service/tracker-ws-ownership.service.ts:130-150 | an uninterrupted refresh takes a free key and renews its own, and is told so; it leaves the lease of another owner alone and forgets an older confirmation |
| Leases.ShutdownGivesBack | src/roles/tracker/service/tracker-ws-ownership.service.ts:85-99 | a shutdown gives the own lease back, so that any process can take the key at once, and no other one |
| Leases.TrackerWsOwnership.Refresh | src/roles/tracker/service/tracker-ws-ownership.service.ts:110-153 | after a refresh a snapshot names this process exactly when the store holds its renewed lease, and leases of others are untouched |
| LeasedUpdates.MutualExclusion | src/roles/executor/usecase/pickup-requested-orders.usecase.ts:327-367 | if no critical section lasts as long as the time to live, sections of one key exclude each other in every run, with releases arbitrarily late |
| LeasedUpdates.CycleAlone | src/roles/collector/chart-archive/chart-archive-writer.service.ts:790-827 | a process alone with a free key merges its value into the object and leaves the key free and no section open |
| LeasedUpdates.LateReleaseHarmless | src/roles/executor/usecase/pickup-requested-orders.usecase.ts:356-366 | a late release never touches the lease of a successor |
| LeasedUpdates.NoLostUpdate | src/roles/collector/chart-archive/chart-archive-writer.service.ts:790-827 | under the same bound the object is what merging every write in lock order makes of its first value |
| LeasedUpdates.ExcludesExactlyWhen | src/roles/executor/usecase/pickup-requested-orders.usecase.ts:327-367 | for every time to live and every bound d on the sections, all runs keep mutual exclusion if and only if d is less than the time to live |
| LeasedUpdates.LosesNothingExactlyWhen | src/roles/collector/chart-archive/chart-archive-writer.service.ts:790-827 | all runs keep every update if and only if d is less than the time to live, for every update under which a write can tell whether another came before it |
| LeasedUpdates.OverrunLosesUpdate | src/roles/collector/chart-archive/chart-archive-writer.service.ts:790-827 | the run behind the other half, for any time to live, update and values: the second of two overlapping writes replaces the first |
| AccountChains.OneAtATimeInOrder | src/roles/executor/usecase/pickup-requested-orders.usecase.ts:207-229 | in every run the calls of one account run one at a time and in arrival order; a call may start exactly when it is the oldest unfinished one |
| AccountChains.EntryKeptWhileAwaited | src/roles/executor/usecase/pickup-cancelling-orders.usecase.ts:210-232 | the map entry of an account is there exactly while some call of it is unfinished |
| AccountChains.HeadCanProceed | src/roles/executor/usecase/pickup-requested-orders.usecase.ts:207-229 | the oldest unfinished call always runs or may enter |
| AccountChains.EntersExactlyAtHead | src/roles/executor/usecase/pickup-requested-orders.usecase.ts:218-220 | the awaited tail has resolved exactly when the call is the head of its account |
| AccountChains.AccountLock.Chain | src/roles/executor/usecase/pickup-requested-orders.usecase.ts:211-218 | a call chains itself behind the stored tail of its account |
| AccountChains.AccountLock.AwaitPrevious | src/roles/executor/usecase/pickup-requested-orders.usecase.ts:220 | the wait lets a call through exactly at the head of its account |
| AccountChains.AccountLock.Release | src/roles/executor/usecase/pickup-requested-orders.usecase.ts:223-228 | the entry is deleted exactly when no later call of the account is chained behind |
| CandleRows.MergeMeaning | src/roles/collector/chart-archive/chart-archive-writer.service.ts:915-923 | a merge is strictly sorted, has one row per bucket, and the incoming row wins |
| CandleRows.MergeAssociative | src/roles/collector/chart-archive/chart-archive-writer.service.ts:915-923 | merging is associative |
| CandleRows.MergeIdempotent | src/roles/collector/chart-archive/chart-archive-writer.service.ts:915-923 | merging the same rows again, or a stored object with itself, changes nothing |
| CandleRows.MergeRows | src/roles/collector/chart-archive/chart-archive-writer.service.ts:915-923 | the two loops and the sort compute the merge |
| CandleRows.SortRowsMeaning | src/roles/collector/chart-archive/chart-archive-writer.service.ts:894 | sorting rows with distinct buckets does not depend on their order |
| CandleRows.AggregateIsSummary | src/roles/collector/chart-archive/chart-archive-writer.service.ts:888-913 | an aggregate is first open, highest high, lowest low, last close and total volume, whatever the input order |
| CandleRows.DeriveRows | src/roles/collector/chart-archive/chart-archive-writer.service.ts:853-885 | the grouping loop derives one row per coarser bucket, in order |
| CandleRows.HourInOneDay | src/roles/collector/chart-archive/chart-archive-writer.service.ts:934-942 | every UTC hour lies in one KST date |
| CandleRows.VolumeConserved | src/roles/collector/chart-archive/chart-archive-writer.service.ts:853-913 | deriving a timeframe conserves total volume |
| CandleRows.DaysAgreeAcrossTimeframes | src/roles/collector/chart-archive/chart-archive-writer.service.ts:853-913 | daily rows derived from the derived hourly rows equal those derived from the minutes: open, high, low, close and volume |
| KrxCalendar.DatesAscend | src/roles/collector/chart-archive/chart-archive-writer.service.ts:925-932 | comparing trade dates as text compares days |
| KrxCalendar.PartitionKeyIsPeriod | src/shared/chart-archive/partition-key.ts:18-27 | two dates share a month or year partition key exactly when they share the first day of the period |
| KrxCalendar.RangeIsSet | src/roles/collector/chart-archive/krx-calendar.service.ts:181-208 | a range lists exactly its trading days, and the counts taken over the list are sums over that set |
| KrxCalendar.ExpectedIsSum | src/roles/collector/chart-archive/krx-calendar.service.ts:181-190 | expected rows of a month or year are the hours, or the number, of the trading days up to the date |
| KrxCalendar.ExpectedExactlyWhen | src/roles/collector/chart-archive/krx-calendar.service.ts:159-208 | expected rows are counted, and not refused, if and only if the calendar answers for every day from the start of the period to the date |
| KrxCalendar.TableKeepsLast | src/roles/collector/chart-archive/krx-calendar.service.ts:93-94 | a loaded table holds the days the query returned and, for each, its last row |
| CalendarDates.TradesExactlyWhen | src/roles/collector/chart-archive/krx-calendar.service.ts:159-170 | a day trades exactly when its row says so, or without a row and unless rows are demanded, when it is neither a Saturday nor a Sunday, counted on from the epoch, nor a listed date |
| CalendarDates.DateExactlyWhen | src/roles/collector/chart-archive/krx-calendar.service.ts:198-208 | a day has a date exactly when the date is valid and its closed day count by the Gregorian leap rule is the number of the day |
| CalendarDates.ExpectedOfTradingDay | src/roles/collector/chart-archive/krx-calendar.service.ts:172-196 | a trading day counts 380 minutes and 7 hours, the early close of 2026-12-30 counts 210 and 4, and a closing time column decides otherwise |
| CalendarDates.FirstMondayOf2026 | src/roles/collector/chart-archive/krx-calendar.service.ts:12-38 | day 20458 is Monday, 2026-01-05, and trades; the Saturday and the New Year before it do not |
| CalendarDates.ListedDateIsWeekday | src/roles/collector/chart-archive/krx-calendar.service.ts:12-38 | every listed holiday is a weekday, so that each takes a trading day away |
| SessionRows.KstClock | src/shared/chart-archive/partition-key.ts:13-16 | for every instant: the Korean clock is nine hours ahead, its date changes at 15:00 UTC, and the session filter passes the first 380 minutes of the UTC day |
| KrxCalendar.KrxCalendarService.RefreshFromDb | src/roles/collector/chart-archive/krx-calendar.service.ts:75-98 | a refresh replaces the table with the query result and keeps it when the query fails |
| KrxCalendar.KrxCalendarService.TradingDaysInRange | src/roles/collector/chart-archive/krx-calendar.service.ts:198-208 | the cursor loop gives the specified list, or the error when a day is missing from a required calendar |
| SessionRows.ReadyWhenStraysCoverMissing | src/roles/collector/chart-archive/chart-archive-writer.service.ts:405-407 | the row count is reached exactly when stray bars make up for every missing minute |
| SessionRows.ReadyIsCompleteInSession | src/roles/collector/chart-archive/chart-archive-writer.service.ts:405-407 | with no bar outside the session, the count is reached exactly when every session minute is present |
| SessionRows.WhenReadyMeansComplete | src/shared/chart-archive/partition-key.ts:59-65 | for every object the filter lets through, READY means complete if and only if the session closes at 15:20 or later, or is empty |
| SessionRows.LateCloseNeverReady | src/shared/chart-archive/partition-key.ts:59-65 | a day whose session closes after 15:20 is never READY |
| SessionRows.CompleteDayHours | src/roles/collector/chart-archive/krx-calendar.service.ts:176-179 | a complete day of n minutes derives exactly ceil(n / 60) hourly rows |
| ChartArchive.DerivedIsBatch | src/roles/collector/chart-archive/chart-archive-writer.service.ts:717-788 | for every calendar, in every run of archive, backfill, stale-marking and rebuild operations, every 1h and 1d object equals the batch derivation from the minute rows of exactly the READY days up to which the calendar answers |
| ChartArchive.AllReadyDerivedExactlyWhen | src/roles/collector/chart-archive/chart-archive-writer.service.ts:717-788 | a derived object is the batch derivation from all READY days of its period if and only if the calendar answers from the start of the period to each of them that holds a row |
| ChartArchive.FallbackDerivesAll | src/roles/collector/chart-archive/krx-calendar.service.ts:159-170 | with the built-in fallback of the calendar nothing is left out |
| ChartArchive.UnansweredDayIsLost | src/roles/collector/chart-archive/chart-archive-writer.service.ts:403-412 | the failing run of a calendar required from the database: a full day is stored READY and its period objects stay without it |
| ChartArchive.RunKeeps | src/roles/collector/chart-archive/chart-archive-writer.service.ts:348-486 | every run also keeps day objects sorted and of their own date, and a day READY exactly when it trades and has the rows its session counts |
| ChartArchive.RebuildIsIdentity | src/roles/collector/chart-archive/chart-archive-writer.service.ts:206-244 | rebuilding any derived object after any run changes no stored row |
| ChartArchive.BatchByBucket | src/roles/collector/chart-archive/chart-archive-writer.service.ts:222-223 | the concatenated day objects hold a bucket exactly when its own date is listed and holds it |
| ArchiveManifests.DayReadyIsComplete | src/roles/collector/chart-archive/chart-archive-writer.service.ts:403-412 | after every run of in-session writes a trading day is READY exactly when every session minute is present |
| ArchiveManifests.PeriodReadyIsComplete | src/roles/collector/chart-archive/chart-archive-writer.service.ts:776-786 | a month 1h or year 1d manifest that is not stale is READY exactly when every trading day from the start of the period to the latest READY day it counts is complete |
| ArchiveManifests.SessionsInRange | src/roles/collector/chart-archive/krx-calendar.service.ts:159-196 | every calendar, required from the database or not, whose own closing times are after 09:00 meets the assumption of the two results above |
| ArchiveManifests.PeriodRowCount | src/roles/collector/chart-archive/chart-archive-writer.service.ts:776-786 | a derived object has exactly the rows its counted READY days are to have |
| ArchiveManifests.LatestRow | src/roles/collector/chart-archive/chart-archive-writer.service.ts:925-932 | the date the corrected count runs to is the latest counted READY day of the period |
| ChartArchiveWriter.MaxKstTradeDate | src/roles/collector/chart-archive/chart-archive-writer.service.ts:925-932 | the loop gives the latest KST date among the rows, or the fallback |
| ChartArchiveWriter.ChartArchiveWriterService.WriteMergedAggregatePartition | src/roles/collector/chart-archive/chart-archive-writer.service.ts:753-788 | merges derived rows into one period object and sets its status from both counts |
| ChartArchiveWriter.ChartArchiveWriterService.WriteAggregatePartitions | src/roles/collector/chart-archive/chart-archive-writer.service.ts:717-751 | writes the month object and then the year object of a READY day |
| ChartArchiveWriter.ChartArchiveWriterService.WriteMergedDay | src/roles/collector/chart-archive/chart-archive-writer.service.ts:403-412 | the read-merge-write of a day object and of what it derives |
| ChartArchiveWriter.ChartArchiveWriterService.ArchiveTradeDate | src/roles/collector/chart-archive/chart-archive-writer.service.ts:348-413 | the effect of archiving one symbol on one date, trading or not |
| ChartArchiveWriter.ChartArchiveWriterService.ArchiveBackfillCandles | src/roles/collector/chart-archive/chart-archive-writer.service.ts:415-486 | the effect of a backfill, which may insist on a full day |
| ChartArchiveWriter.ChartArchiveWriterService.RebuildDerivedManifests | src/roles/collector/chart-archive/chart-archive-writer.service.ts:206-244 | rebuilds the listed manifests in order and counts those with no rows, up to the first error of the calendar, which ends it |
| ChartArchiveWriter.RebuildStops | src/roles/collector/chart-archive/chart-archive-writer.service.ts:206-244 | an error of the calendar ends a rebuild: the manifests listed after it change nothing |
| ChartArchiveWriter.RebuildCompletesExactlyWhen | src/roles/collector/chart-archive/chart-archive-writer.service.ts:206-244 | a rebuild goes through exactly when the calendar can count for each listed manifest when its turn comes |
| ChartArchiveWriter.SkipsExactlyWhen | src/roles/collector/chart-archive/chart-archive-writer.service.ts:216-227 | a manifest is skipped exactly when no READY day of its period holds a row |
| ChartArchiveWriter.SkippedMeaning | src/roles/collector/chart-archive/chart-archive-writer.service.ts:206-244 | the manifests counted as skipped are the listed ones that are skipped, as often as they are listed |
| ConcurrentArchive.AlwaysLaid | src/roles/collector/chart-archive/chart-archive-writer.service.ts:717-788 | in every interleaving of day writers, some of which may die, and rebuilds, every bucket of a derived object holds at every moment what the rows of its date merged last over it derive |
| ConcurrentArchive.BatchExactlyWhen | src/roles/collector/chart-archive/chart-archive-writer.service.ts:717-788 | a derived object is the batch derivation from the stored rows if and only if, for each counted READY day, what was merged of it lays to what it derives now |
| ConcurrentRebuilds.SettledIsBatch | src/roles/collector/chart-archive/chart-archive-writer.service.ts:403-412 | if no rebuild of the run wrote a row its day no longer derives, the object is the batch derivation whenever no READY day of the period is between its own write and the aggregate, in whatever order the days were written and merged |
| ConcurrentRebuilds.RebuildExactlyWhen | src/roles/collector/chart-archive/chart-archive-writer.service.ts:206-244 | over all runs, an object that was the batch derivation is so after the write of a rebuild if and only if no day it read has since been rewritten with another row in some coarser bucket |
| ConcurrentRebuilds.RebuildRepairs | src/roles/collector/chart-archive/chart-archive-writer.service.ts:206-244 | a rebuild that read every READY day of the period as it is stored leaves the batch derivation, whatever dead writers and earlier rebuilds left |
| ConcurrentRebuilds.RebuildSetsBack | src/roles/collector/chart-archive/chart-archive-writer.service.ts:212-240 | the failing run from every reachable state and READY day rewritten with another coarser row between the reads and the write of a rebuild: the object keeps the old row though the day writer has merged everything |
| ConcurrentRebuilds.SetBackFromStart | src/roles/collector/chart-archive/chart-archive-writer.service.ts:212-240 | that run from the empty archive, for every trading day, full set of candles and later set that changes a coarser row |
| ConcurrentRebuilds.UninterruptedIsWriteDay | src/roles/collector/chart-archive/chart-archive-writer.service.ts:403-412 | a day writer that is not interrupted does what the sequential archive does |
| ConcurrentRebuilds.UninterruptedIsRebuild | src/roles/collector/chart-archive/chart-archive-writer.service.ts:206-244 | so does a rebuild |
| PartitionLocks.EveryWriteKept | src/roles/collector/chart-archive/chart-archive-writer.service.ts:790-827 | concurrent writers whose sections end within the lock leave every bucket any of them wrote, with the row of its last writer |
| PartitionLocks.WritesKeptExactlyWhen | src/roles/collector/chart-archive/chart-archive-writer.service.ts:790-827 | every run whose sections last at most d keeps every row written to a stored object if and only if d is less than the time to live of the lock |
| PartitionLocks.AcquireWithRetries | src/roles/collector/chart-archive/chart-archive-writer.service.ts:801-812 | the retry loop takes the first grant and gives up after one try more than the retries |
| RateLimiter.WindowBound | src/external/brokerage/service/rate-limiter.service.ts:48-126 | under any clock, between reconfigurations, a whole run is granted at readings in [t1, t2] at most capacity + rate * (t2 - t1), plus what accrues while the clock was past t2 before it came back, less the token that a call there costs |
| RateLimiter.WindowsBoundedExactlyWhen | src/external/brokerage/service/rate-limiter.service.ts:48-126 | the plain bound capacity + rate * (t2 - t1) holds in every run whose readings go back by at most d if and only if the capacity is below 2 or at most one token accrues over d |
| RateLimiter.ComebackGrants | src/external/brokerage/service/rate-limiter.service.ts:104-126 | the failing run for every other bucket and d: one call more than the bound at readings in the window |
| RateLimiter.BoundOfWindow | src/external/brokerage/service/rate-limiter.service.ts:48-126 | a clock that reads only inside the window keeps the plain bound, whatever the order of its readings |
| RateLimiter.BoundForwards | src/external/brokerage/service/rate-limiter.service.ts:48-126 | a clock that never goes back keeps the plain bound for every window |
| RateLimiter.RunKeeps | src/external/brokerage/service/rate-limiter.service.ts:48-126 | the bucket never holds less than nothing nor more than its capacity, across reconfigurations |
| RateLimiter.ConcurrencyCapped | src/external/brokerage/service/rate-limiter.service.ts:48-58 | calls in flight never exceed the cap |
| RateLimiter.InFlightIsOutstanding | src/external/brokerage/service/rate-limiter.service.ts:69-74 | what is in flight is what was granted and not released |
| RateLimiter.AcquireExactlyWhen | src/external/brokerage/service/rate-limiter.service.ts:48-70 | a call is turned away by a cap that is set and reached, and otherwise granted exactly when a whole token is there |
| RateLimiter.RateLimiterService.Create | src/external/brokerage/service/rate-limiter.service.ts:30-46 | building from unusable options is refused; otherwise the bucket starts full |
| RateLimiter.RateLimiterService.TryAcquire | src/external/brokerage/service/rate-limiter.service.ts:48-70 | the non-waiting acquire: the cap first, then a token, then one more in flight |
| RateLimiter.RateLimiterService.TryTake | src/external/brokerage/service/rate-limiter.service.ts:104-114 | refills, then takes one token exactly when a whole one is there |
| RateLimiter.RateLimiterService.Free | src/external/brokerage/service/rate-limiter.service.ts:72-74 | a release never goes below zero |
| RateLimiter.RateLimiterService.ReconfigureTo | src/external/brokerage/service/rate-limiter.service.ts:80-92 | refills at the old rate, then takes the new options and clips the tokens; unusable options change nothing |
| Reconfigurations.ReconfigureLeaves | src/external/brokerage/service/rate-limiter.service.ts:80-92 | a usable reconfiguration leaves the smallest of the new capacity, the old one and the tokens held plus what accrued at the old rate, with the same calls in flight; an unusable one is refused |
| Reconfigurations.WindowAcrossReconfigurations | src/external/brokerage/service/rate-limiter.service.ts:48-126 | in a run with reconfigurations, from any state and any reading on, a clock that never goes back is granted at most the capacity in force there plus what accrues at the rates in force, and at most the tokens held plus what accrued and accrues |
| Reconfigurations.SupplyAtHighestRate | src/external/brokerage/service/rate-limiter.service.ts:116-126 | what accrues at the rates in force is at most what the highest of them accrues over the same time |
| Reconfigurations.CappedAcrossReconfigurations | src/external/brokerage/service/rate-limiter.service.ts:48-58 | across reconfigurations calls in flight stay within the largest cap in force |
| RateLimiter.RateLimiterService.RefillAt | src/external/brokerage/service/rate-limiter.service.ts:116-126 | refills only when time has passed |
| SharedLimiter.ExpiryInvisible | src/external/brokerage/service/shared-credential-rate-limiter.service.ts:29-76 | under a clock that never goes back, if an idle bucket refills within its time to live, every run answers as a bucket that never expires |
| SharedLimiter.ExpiryInvisibleExactlyWhen | src/external/brokerage/service/shared-credential-rate-limiter.service.ts:29-76 | for a whole capacity and any concurrency cap, expiry is invisible if and only if rate * ttl >= capacity |
| SharedLimiter.LeasesLater | src/external/brokerage/service/shared-credential-rate-limiter.service.ts:38-50 | the expiry of the in-flight key is never seen |
| SharedLimiter.LeasesCapped | src/external/brokerage/service/shared-credential-rate-limiter.service.ts:52-54 | at most maxConcurrent leases are live after every run |
| SharedLimiter.AcquireLeases | src/external/brokerage/service/shared-credential-rate-limiter.service.ts:38-76 | an acquire deletes the leases that ran out and adds its own exactly when it is granted; it answers with the number of leases then live, but for a grant to an owner that already had one; the cap refuses exactly when it is set and reached |
| SharedLimiter.WindowBound | src/external/brokerage/service/shared-credential-rate-limiter.service.ts:56-75 | under any clock a run grants at readings in [t1, t2] at most capacity + rate * (t2 - t1), plus what accrues over the time its readings went back in all |
| SharedLimiter.WindowsBoundedExactlyWhen | src/external/brokerage/service/shared-credential-rate-limiter.service.ts:56-75 | for a whole capacity, the plain bound capacity + rate * (t2 - t1) holds in every run whose readings go back by at most d if and only if d = 0 and rate * ttl >= capacity |
| SharedLimiter.BackwardExcess | src/external/brokerage/service/shared-credential-rate-limiter.service.ts:61-69 | the excess is reached: any whole number of tokens that accrue over the time the clock went back, up to a full bucket, is granted again at one reading |
| SharedLimiter.RedisKeys.SweepInflight | src/external/brokerage/service/shared-credential-rate-limiter.service.ts:38-50 | deletes exactly the leases that ran out and counts the others |
| SharedLimiter.RedisKeys.AcquireScript | src/external/brokerage/service/shared-credential-rate-limiter.service.ts:29-76 | the acquire script over the stored hashes is the specified step |
| SharedLimiter.RedisKeys.ReleaseScript | src/external/brokerage/service/shared-credential-rate-limiter.service.ts:78-92 | the release script removes one lease, and the key with the last one |
| CandleBuilder.StreamingIsBatch | src/roles/collector/service/candle-builder.service.ts:28-89 | between flushes, for any interleaving of keys, the closed candles followed by the open one are the per-minute grouping of the accepted ticks of the key |
| CandleBuilder.StreamedCandles | src/roles/collector/service/candle-builder.service.ts:28-164 | strictly increasing minutes, no volume and no accepted tick lost, low <= open, close <= high, times inside the minute exactly when they are not before the KST epoch (or are whole minutes), and each candle the summary of all accepted ticks of its minute with the descents of its cumulative volumes as anomalies |
| CandleBuilder.AcceptedExactlyWhen | src/roles/collector/service/candle-builder.service.ts:29-69 | a tick is accepted exactly when it is valid and not older than the last accepted one of its key |
| CandleBuilder.GroupIsGrouping | src/roles/collector/service/candle-builder.service.ts:71-88 | the grouping has one candle for each minute with a tick, in increasing order, each over all its ticks |
| CandleBuilder.GroupConserves | src/roles/collector/service/candle-builder.service.ts:116-164 | grouping conserves volume and tick count |
| CandleBuilder.SummariseMore | src/roles/collector/service/candle-builder.service.ts:144-164 | updating a candle with a tick is summarising one tick more |
| CandleBuilder.CandleInvariant | src/roles/collector/service/candle-builder.service.ts:116-164 | prices lie between low and high, and times in the bucket exactly when they are not before the KST epoch or are whole minutes |
| CandleBuilder.BucketContainsExactlyWhen | src/roles/collector/service/candle.model.ts:38-47 | a time lies in its own bucket if and only if it is not before the KST epoch, or is a whole minute |
| CandleBuilder.RejectionsCounted | src/roles/collector/service/candle-builder.service.ts:109-113 | the counters count the rejected ticks, reason by reason |
| CandleBuilder.RejectedForFirstReason | src/roles/collector/service/candle-builder.service.ts:28-69 | a tick is rejected with the first reason, in the order of the code, that applies to it, and with no other |
| CandleBuilder.FlushedSessionsAreBatches | src/roles/collector/service/candle-builder.service.ts:95-103 | over any number of sessions each ended by a flush, the candles handed out, closed or flushed, are the per-minute groupings of the sessions one after the other: none is lost, handed out twice or left behind |
| CandleBuilder.CandleBuilderService.IngestTick | src/roles/collector/service/candle-builder.service.ts:28-89 | the reject order, the candle closed or updated, and the state afterwards |
| CandleBuilder.CandleBuilderService.Flush | src/roles/collector/service/candle-builder.service.ts:95-103 | detaches every open candle and leaves the builder fresh but for its counters |
| JcsDecoding.SameTextExactlyWhenEqual | src/common/util/jcs.ts:23-48 | two values that can be written have one canonical text if and only if they are equal up to member order, undefined members and the sign of zero |
| JcsDecoding.Decodes | src/common/util/jcs.ts:23-48 | a canonical text determines the value and where its text ends, at every depth |
| JcsDecoding.MemberOrderIrrelevant | src/common/util/jcs.ts:36-45 | the order in which an object holds its members does not matter |
| JcsDecoding.WrittenExactlyWhenSupported | src/common/util/jcs.ts:6-48 | a value is refused exactly when it holds, anywhere, a non-finite number, an undefined outside a member, or an unsupported kind |
| JcsDecoding.StringDecodes | src/common/util/jcs.ts:18-21 | an escaped string ends where it can be seen to end and determines the string |
| JcsReading.ReadUndoesEscape | src/common/util/jcs.ts:18-21 | a JSON reader (section 7 of RFC 8259) gets every string back, lone surrogates included, and stops at its closing quote |
| JcsReading.EscapedIsWellFormed | src/common/util/jcs.ts:18-21 | the text of every string is well-formed UTF-16, whatever surrogates the string holds |
| JcsReading.PlainIsNotEscaped | src/common/util/jcs.ts:18-21 | a well-formed string without quote, backslash or control is written as it is |
| JcsReading.ReadsBack | src/common/util/jcs.ts:23-48 | every valid value without unsupported contents is written as a text that a JSON reader with code units of its own (RFC 8259) reads back whole, as a value equal up to member order, undefined members and the sign of zero, its members in ascending order; writing that value gives the text again |
| CodeUnits.LessExactlyWhen | src/common/util/jcs.ts:38-40 | the sort order is decided at the first difference, by code unit, with a text after its proper prefixes |
| JcsDecoding.SortPairsMeaning | src/common/util/jcs.ts:38-40 | sorting keeps the members and puts their keys in strictly ascending code-unit order |
| Sharding.HashStepIsMultiplication | src/roles/collector/service/collector-shard-assignment.service.ts:203-207 | the shift-and-add step on signed 32-bit values is multiplication by the FNV prime 16777619 modulo 2^32 |
| Sharding.HashIsFnv1a | src/roles/collector/service/collector-shard-assignment.service.ts:200-210 | the hash is FNV-1a with the published 32-bit offset basis and prime, over the code units of the text |
| Sharding.ScoresTellSymbolsApart | src/roles/collector/service/collector-shard-assignment.service.ts:184-198 | a member scores two symbols the same exactly when the symbols have the same hash, since each step of the hash can be undone |
| Sharding.HashOfA | src/roles/collector/service/collector-shard-assignment.service.ts:200-210 | the published hash of the text "a" |
| Sharding.ComputeFnv1a32 | src/roles/collector/service/collector-shard-assignment.service.ts:200-210 | the hash loop computes the specified hash |
| Sharding.OwnerFor | src/roles/collector/service/collector-shard-assignment.service.ts:184-198 | the loop gives the first member with the highest score |
| Sharding.OwnerIsPreferred | src/roles/collector/service/collector-shard-assignment.service.ts:184-198 | the owner has the highest score, ties going to the first in member order |
| Sharding.OneMemberMoves | src/roles/collector/service/collector-shard-assignment.service.ts:184-198 | adding a member moves symbols only to it, and removing one moves only its own |
| Sharding.AssignmentsPartition | src/roles/collector/service/collector-shard-assignment.service.ts:39-51 | workers with one member set assign every symbol to exactly one member |
| Sharding.OthersKeepOrShrink | src/roles/collector/service/collector-shard-assignment.service.ts:49-51 | when a member leaves no other worker loses a symbol, and when one joins no other gains one |
| Sharding.TakeoversNameTheMember | src/roles/collector/service/collector-shard-assignment.service.ts:151-164 | takeovers reported after one member left come from it, and after one joined go to it |
| Sharding.CollectorShardAssignmentService.Assign | src/roles/collector/service/collector-shard-assignment.service.ts:39-72 | assigns its own symbols, reports the first ten takeovers and remembers the owners |

## Left out

- Calendar changes during a run, and calls that switch the derived writes off. Crashes between the write of a day object and the
  writes of what it derives are in `ConcurrentArchive` and `ConcurrentRebuilds` only, which in turn have no stale marks and no
  non-trading days, and take it that the lock of a day admits one writer (`PartitionLocks.WritesKeptExactlyWhen` says when).
- `rebuildDerivedForDate`, the trading-value backfill, dry runs, checksums, sidecar manifests and alerts of the archive.
- ArchiveManifests.PeriodReadyIsComplete: assumes sessions that close after 09:00, and bars that are minute-aligned and inside
  their own session; the code checks only the 09:00 to 15:20 filter.
- ArchiveManifests.DayReadyIsComplete: under the same assumptions; without them the exact rule is SessionRows.ReadyWhenStraysCoverMissing.
- ChartArchive.DerivedIsBatch: assumes candles of the date they are archived for.
- OrderProtocol.AckedCloseExactlyWhen: assumes that executions carry the vendor's order number, which the only mapper that
  produces them checks.
- Leases.OneFreshOwner: speaks of confirmations younger than the time to live, counted from the last command of the refresh. The
  service publishes its snapshots at the end of a refresh and never checks their age.
- Leases.RunBacked: under the same reading of age.
- KrxCalendar: the session opening time column, which the code reads nowhere, and the manual override, which is a database upsert.
- Prices, volumes and trading values of candles are integers here and floating-point numbers in the source.
- The chain of one account and its lease are proved separately; their nesting adds no state.
- A vendor call is one step with an arbitrary answer; network, Redis, Postgres, S3 and the message bus appear only through
  their atomic effects, and a database error other than a unique violation of the position books is not modelled.
- `where` with a null column is read as IS NULL in the lookup of a manual position book, as the filter is written; a
  database layer that drops null filters would return any manual book of the account and stock.
- OrderProtocol.PlacedAtMostOnce: an order whose broker call failed in transit counts as called; FAILED does not mean that the
  broker never received it.
- FillOutbox.LeavesOnlyPublished: claims of outbox rows are not exclusive, since a release is not fenced by its owner; of them
  it is proved only when a row can be claimed again. The first publish, right after the ingest, sends the payload as delivered while a flush sends the
  stored row; contents of published events are not modelled.
- RateLimiter.WindowBound: between reconfigurations, since a reconfiguration refills without costing a token; across them
  Reconfigurations.WindowAcrossReconfigurations states the bound for a clock that never goes back.
- RateLimiter: waiting for a token (`waitOnExhaustion`), which no caller switches on.
- SharedLimiter.ExpiryInvisibleExactlyWhen: states the equivalence for a whole capacity; the sufficient direction,
  SharedLimiter.ExpiryInvisible, is for every capacity.
- SharedLimiter: all processes use one time to live and one set of limits; the keys expire on the clock of the readings, while
  Redis expires them on its own; rounding of the numbers Redis stores.
- CandleBuilder: the market and chart-source labels of a candle, which are copied through.
- JcsDecoding.SameTextExactlyWhenEqual: the text of a finite number is a numeral of the JSON grammar, one for each number;
  which one ECMAScript prints is not modelled. Arrays with holes
  are not values here; the code writes a hole as no text at all, so an array of one hole gets the text of the empty array.
- Sharding: symbols enter normalised (trimmed, non-empty, distinct, sorted); the heartbeat scan that lists the members.
- Sharding.AssignmentsPartition: workers that see different members may both own a symbol or neither.
- Configuration, modules, controllers, metrics, notifications, frame parsing, indicators and cryptography: no state worth a proof.
