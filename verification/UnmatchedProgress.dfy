/** Progress of the unmatched-fill queue: every completed retry uses up part of a finite budget. */
module UnmatchedProgress {
  import opened Wrappers
  import opened ScaledDecimal
  import opened PositionBook
  import opened Orders
  import opened FillLedger
  import opened FillRuns
  import opened BookRuns

  function RowWork(cfg: TrackerConfig, row: UnmatchedRow): int {
    if row.status.Pending? then cfg.unmatchedMaxAttempts - row.attempts else 0
  }

  /** The retries the pending rows may still use: the termination measure of the queue. */
  function PendingWork(cfg: TrackerConfig, rows: seq<UnmatchedRow>): int {
    if rows == [] then 0 else PendingWork(cfg, rows[..|rows| - 1]) + RowWork(cfg, rows[|rows| - 1])
  }

  lemma {:induction false} WorkAfterUpdate(cfg: TrackerConfig, rows: seq<UnmatchedRow>, i: nat, row: UnmatchedRow)
    requires i < |rows|
    ensures PendingWork(cfg, rows[i := row]) == PendingWork(cfg, rows) - RowWork(cfg, rows[i]) + RowWork(cfg, row)
  {
    var n := |rows| - 1;
    if i == n {
      assert rows[i := row][..n] == rows[..n];
    } else {
      WorkAfterUpdate(cfg, rows[..n], i, row);
      assert rows[i := row][..n] == rows[..n][i := row];
    }
  }

  lemma {:induction false} WorkNonNegative(cfg: TrackerConfig, rows: seq<UnmatchedRow>, fills: seq<FillRow>)
    requires UnmatchedOk(cfg, rows, fills)
    ensures PendingWork(cfg, rows) >= 0
  {
    if rows != [] {
      assert UnmatchedRowOk(cfg, rows[|rows| - 1], fills);
      WorkNonNegative(cfg, rows[..|rows| - 1], fills);
    }
  }

  /**
   * A retry of a pending row that completes either settles the row or uses one of its attempts, so
   * the measure drops; the only retry that does neither is the one a unique violation aborts, which
   * leaves the whole ledger as it was.
   */
  lemma RetryProgress(cfg: TrackerConfig, l: Ledger, i: nat, now: int)
    requires LedgerOk(cfg, l) && i < |l.unmatched| && l.unmatched[i].status.Pending?
    ensures var (next, outcome) := Retry(cfg, l, i, now);
            && (outcome.Aborted? <==> Blocked(l, l.unmatched[i].payload))
            && (outcome.Aborted? ==> next == l)
            && (outcome.Completed? ==>
                  && next.unmatched == l.unmatched[i := RetriedRow(cfg, l.unmatched[i], outcome, now)]
                  && PendingWork(cfg, next.unmatched) < PendingWork(cfg, l.unmatched))
  {
    hide Ingest, BuildExternalFillId, Blocked, OrdersOk, FillsOk, BooksOk, OutboxOk;
    var row := l.unmatched[i];
    assert UnmatchedRowOk(cfg, row, l.fills);
    RetryKeepsRows(cfg, l, i, now);
    DeliveryEffect(cfg, l, row.payload, false, now);
    CreditedExactlyWhen(cfg, l, row.payload, false, now);
    var outcome := Ingest(cfg, l, row.payload, false, now).1;
    if outcome.Completed? {
      WorkAfterUpdate(cfg, l.unmatched, i, RetriedRow(cfg, row, outcome, now));
    }
  }

  predicate CompletedRetry(cfg: TrackerConfig, l: Ledger, e: Event) {
    e.RetryRow? && Enabled(l, e) && Retry(cfg, l, e.index, e.now).1.Completed?
  }

  function CompletedRetries(cfg: TrackerConfig, l: Ledger, events: seq<Event>): nat
    decreases |events|
  {
    if |events| == 0 then 0
    else (if CompletedRetry(cfg, l, events[0]) then 1 else 0) + CompletedRetries(cfg, Apply(cfg, l, events[0]), events[1..])
  }

  function Deliveries(events: seq<Event>): nat {
    if |events| == 0 then 0 else (if events[0].Deliver? then 1 else 0) + Deliveries(events[1..])
  }

  lemma DeliverWork(cfg: TrackerConfig, l: Ledger, p: Payload, now: int)
    requires LedgerOk(cfg, l)
    ensures var rows := Ingest(cfg, l, p, true, now).0.unmatched;
            PendingWork(cfg, rows) <= PendingWork(cfg, l.unmatched) + cfg.unmatchedMaxAttempts
  {
    hide BuildExternalFillId, BuildFillAggregate, ApplyPositionBookFill, HasFillId, HasOutboxKey;
    hide OrdersOk, FillsOk, BooksOk, OutboxOk, UnmatchedOk;
    var rows := Ingest(cfg, l, p, true, now).0.unmatched;
    if rows != l.unmatched {
      assert |rows| == |l.unmatched| + 1 && rows[..|l.unmatched|] == l.unmatched;
    }
  }

  lemma ApplyWork(cfg: TrackerConfig, l: Ledger, e: Event)
    requires LedgerOk(cfg, l)
    ensures PendingWork(cfg, Apply(cfg, l, e).unmatched) + (if CompletedRetry(cfg, l, e) then 1 else 0)
         <= PendingWork(cfg, l.unmatched) + (if e.Deliver? then cfg.unmatchedMaxAttempts else 0)
  {
    hide Ingest, Retry, LedgerOk, PendingWork;
    match e
    case Deliver(p, now) => DeliverWork(cfg, l, p, now);
    case RetryRow(i, now) =>
      if Enabled(l, e) {
        RetryProgress(cfg, l, i, now);
      }
    case _ =>
  }

  /** In any run the retries that complete are paid for: by the work at the start and by new deliveries. */
  lemma {:induction false} RetriesArePaidFor(cfg: TrackerConfig, l: Ledger, events: seq<Event>)
    requires LedgerOk(cfg, l)
    ensures CompletedRetries(cfg, l, events) + PendingWork(cfg, Run(cfg, l, events).unmatched)
         <= PendingWork(cfg, l.unmatched) + cfg.unmatchedMaxAttempts * Deliveries(events)
    ensures CompletedRetries(cfg, l, events) <= PendingWork(cfg, l.unmatched) + cfg.unmatchedMaxAttempts * Deliveries(events)
    decreases |events|
  {
    hide LedgerOk, Apply, PendingWork, CompletedRetry;
    RunKeepsLedger(cfg, l, events);
    WorkOfLedger(cfg, Run(cfg, l, events));
    if |events| > 0 {
      var next := Apply(cfg, l, events[0]);
      ApplyKeepsLedger(cfg, l, events[0]);
      ApplyWork(cfg, l, events[0]);
      RetriesArePaidFor(cfg, next, events[1..]);
      OneMore(cfg.unmatchedMaxAttempts, Deliveries(events[1..]));
    }
  }

  lemma OneMore(a: int, n: nat)
    ensures a * (1 + n) == a + a * n
  {
  }

  lemma WorkOfLedger(cfg: TrackerConfig, l: Ledger)
    requires LedgerOk(cfg, l)
    ensures PendingWork(cfg, l.unmatched) >= 0
  {
    WorkNonNegative(cfg, l.unmatched, l.fills);
  }

  // ---------------------------------------------------------------- what becomes of an uncredited fill

  /** No order takes the fill for now: there is none, or it has no room left. */
  predicate Waits(l: Ledger, p: Payload) {
    var found := FindOrder(l.orders, p);
    found.Some? ==> && l.orders[found.value].orderType == p.side && p.filledQty > 0 && p.filledPrice >= 0
                    && l.orders[found.value].filledQuantity >= l.orders[found.value].quantity
  }

  /** The order is there, but the fill is of the other side or malformed: no retry can help. */
  predicate Hopeless(l: Ledger, p: Payload) {
    var found := FindOrder(l.orders, p);
    found.Some? && (l.orders[found.value].orderType != p.side || p.filledQty <= 0 || p.filledPrice < 0)
  }

  function Found(l: Ledger, p: Payload): Order
    requires FindOrder(l.orders, p).Some?
  {
    l.orders[FindOrder(l.orders, p).value]
  }

  /** The row after a retry of it, told from the tables the retry read. */
  ghost predicate RowAfterRetry(cfg: TrackerConfig, l: Ledger, before: UnmatchedRow, after: UnmatchedRow, now: int) {
    && after.externalFillId == before.externalFillId && after.payload == before.payload && after.reason == before.reason
    && if Hopeless(l, before.payload) then
         && after.status.DeadLetter? && after.attempts == before.attempts + 1 && after.nextRetryAt.None?
         && after.resolvedOrderId == before.resolvedOrderId
         && after.lastError == Some(if Found(l, before.payload).orderType != before.payload.side then SideMismatch else InvalidFill)
       else if Waits(l, before.payload) then
         && after.attempts == before.attempts + 1 && after.resolvedOrderId == before.resolvedOrderId
         && after.lastError == Some(if FindOrder(l.orders, before.payload).None? then OrderNotFound
                                    else if Found(l, before.payload).quantity <= 0 then OrderedQuantityZero else FillClamped)
         && if before.attempts + 1 < cfg.unmatchedMaxAttempts
            then after.status == before.status && after.nextRetryAt == Some(now + cfg.unmatchedRetryDelayMs)
            else after.status.DeadLetter? && after.nextRetryAt.None?
       else
         && after.status.Resolved? && after.attempts == before.attempts && after.lastError.None?
         && after.resolvedOrderId == FindOrder(l.orders, before.payload)
  }

  /**
   * A retry that completes gives up at once on a fill of the wrong side or a malformed one, puts off a
   * fill no order takes yet by exactly the delay until its attempts are used up, and resolves any other.
   */
  lemma RetryOutcome(cfg: TrackerConfig, l: Ledger, i: nat, now: int)
    requires LedgerOk(cfg, l) && i < |l.unmatched|
    ensures var (next, outcome) := Retry(cfg, l, i, now);
            outcome.Completed? ==>
              && |next.unmatched| == |l.unmatched| && next.unmatched == l.unmatched[i := next.unmatched[i]]
              && RowAfterRetry(cfg, l, l.unmatched[i], next.unmatched[i], now)
  {
    hide Ingest, IdOf, Blocked, HasFillId, Found, ScopeFor, ClosedUnfilled, LedgerOk;
    UnmatchedOfLedger(cfg, l);
    RetryKeepsRows(cfg, l, i, now);
    DeliveryReports(cfg, l, l.unmatched[i].payload, false, now);
    WaitsOrHopeless(l, l.unmatched[i].payload);
  }

  lemma UnmatchedOfLedger(cfg: TrackerConfig, l: Ledger)
    requires LedgerOk(cfg, l)
    ensures UnmatchedOk(cfg, l.unmatched, l.fills)
  {
  }

  lemma WaitsOrHopeless(l: Ledger, p: Payload)
    ensures Hopeless(l, p) <==> FindOrder(l.orders, p).Some? && (Found(l, p).orderType != p.side || p.filledQty <= 0 || p.filledPrice < 0)
    ensures Waits(l, p) <==> FindOrder(l.orders, p).None? || (!Hopeless(l, p) && Found(l, p).filledQuantity >= Found(l, p).quantity)
  {
  }

  lemma AppliedAnomaly(o: Order, p: Payload)
    ensures var built := BuildFillAggregate(o, p);
            built.Some? && built.value.appliedQty <= 0 ==>
              built.value.anomaly == Some(if o.quantity <= 0 then OrderedQuantityZero else FillClamped)
  {
    hide AmountOf, AverageOf, PreviousAmount;
  }

  /** The rows after a first delivery that stores what it cannot credit, told from the tables it read. */
  ghost predicate RowsAfterDelivery(cfg: TrackerConfig, l: Ledger, rows: seq<UnmatchedRow>, p: Payload, now: int) {
    var found := FindOrder(l.orders, p);
    if UnmatchedIndex(l.unmatched, IdOf(p)).Some? then rows == l.unmatched
    else if found.None? then
      rows == l.unmatched + [UnmatchedRow(IdOf(p), p, OrderNotFound, Pending, 0, Some(now + cfg.unmatchedRetryDelayMs), None, Some(OrderNotFound))]
    else if l.orders[found.value].orderType != p.side then
      rows == l.unmatched + [UnmatchedRow(IdOf(p), p, SideMismatch, DeadLetter, 0, None, found, Some(SideMismatch))]
    else if p.filledQty <= 0 || p.filledPrice < 0 then
      rows == l.unmatched + [UnmatchedRow(IdOf(p), p, InvalidFill, DeadLetter, 0, None, found, Some(InvalidFill))]
    else if Creditable(l, p) && ScopeFor(l.orders[found.value], p.side, l.books.Keys).None? then
      rows == l.unmatched
              + [UnmatchedRow(IdOf(p), p, PositionBookMissingSell, DeadLetter, 0, None, found, Some(PositionBookMissingSell))]
    else rows == l.unmatched
  }

  /**
   * A delivery keeps a fill for later exactly when its order is not there yet, as a pending row due after
   * the delay. It dead-letters one of the wrong side, a malformed one and a credited sale from no book.
   */
  lemma DeliveryStores(cfg: TrackerConfig, l: Ledger, p: Payload, now: int)
    requires LedgerOk(cfg, l)
    ensures RowsAfterDelivery(cfg, l, Ingest(cfg, l, p, true, now).0.unmatched, p, now)
  {
    hide BuildExternalFillId, BuildFillAggregate, ApplyPositionBookFill, HasFillId, HasOutboxKey, UnmatchedIndex, FilledBy, AmountOf, ScopeFor, ApplyTrade;
    hide FillsOk, BooksOk, OutboxOk, UnmatchedOk, IsStrategyOrder;
    var found := FindOrder(l.orders, p);
    if found.Some? {
      var o := l.orders[found.value];
      AppliedExactlyWhen(o, found.value, l.fills, p);
      var built := BuildFillAggregate(o, p);
      if built.Some? {
        var t := Trade(p.side, built.value.appliedQty, built.value.appliedAmount);
        FillMovesOneBook(l.books, o, t);
        ConflictExactlyWhen(l, o, t);
        if ApplyPositionBookFill(l.books, o, t).Conflict? {
          ConflictHasBook(l, o, t);
        }
      }
    }
  }

  /** What a delivery that finds an order with room for it reports: why it stands out, if it does. */
  function CreditAnomaly(l: Ledger, p: Payload): Option<Anomaly>
    requires FindOrder(l.orders, p).Some?
  {
    var o := Found(l, p);
    if ClosedUnfilled(o.status) then Some(TerminalFill(o.status))
    else if ScopeFor(o, p.side, l.books.Keys).None? then Some(PositionBookMissingSell)
    else None
  }

  /** The answer to a delivery, told from the tables it reads. */
  ghost predicate Reports(l: Ledger, p: Payload, outcome: Outcome) {
    var found := FindOrder(l.orders, p);
    if found.None? then outcome == Completed(false, None, Some(OrderNotFound), IdOf(p))
    else if Found(l, p).orderType != p.side then outcome == Completed(false, found, Some(SideMismatch), IdOf(p))
    else if p.filledQty <= 0 || p.filledPrice < 0 then outcome == Completed(false, found, Some(InvalidFill), IdOf(p))
    else if Found(l, p).filledQuantity >= Found(l, p).quantity then
      outcome == Completed(false, found, Some(if Found(l, p).quantity <= 0 then OrderedQuantityZero else FillClamped), IdOf(p))
    else if HasFillId(l.fills, IdOf(p)) then outcome == Completed(false, found, None, IdOf(p))
    else if Blocked(l, p) then outcome == Aborted
    else outcome == Completed(true, found, CreditAnomaly(l, p), IdOf(p))
  }

  /**
   * Every delivery answers for the first of these that holds: no order, the wrong side, a malformed
   * execution, no room left, a known id, a unique violation; and else that it was credited, with what stands out.
   */
  lemma DeliveryReports(cfg: TrackerConfig, l: Ledger, p: Payload, store: bool, now: int)
    requires LedgerOk(cfg, l)
    ensures Reports(l, p, Ingest(cfg, l, p, store, now).1)
  {
    hide BuildExternalFillId, BuildFillAggregate, ApplyPositionBookFill, HasFillId, HasOutboxKey, SaveUnmatched, FilledBy, AmountOf, ScopeFor, ApplyTrade;
    hide FillsOk, BooksOk, OutboxOk, UnmatchedOk, IsStrategyOrder, ClosedUnfilled;
    var found := FindOrder(l.orders, p);
    if found.Some? {
      var o := l.orders[found.value];
      WithinQuantity(o, found.value, l.fills);
      AppliedExactlyWhen(o, found.value, l.fills, p);
      AppliedAnomaly(o, p);
      var built := BuildFillAggregate(o, p);
      if built.Some? {
        var t := Trade(p.side, built.value.appliedQty, built.value.appliedAmount);
        TerminalAnomaly(o, p);
        FillMovesOneBook(l.books, o, t);
        ConflictExactlyWhen(l, o, t);
      }
    }
  }

  lemma TerminalAnomaly(o: Order, p: Payload)
    ensures var built := BuildFillAggregate(o, p);
            built.Some? && built.value.appliedQty > 0 && o.quantity > 0 ==>
              built.value.anomaly == if ClosedUnfilled(o.status) then Some(TerminalFill(o.status)) else None
  {
    hide AmountOf, AverageOf, PreviousAmount;
  }

  lemma ConflictHasBook(l: Ledger, o: Order, t: Trade)
    requires ApplyPositionBookFill(l.books, o, t).Conflict?
    ensures ScopeFor(o, t.side, l.books.Keys).Some?
  {
    hide ApplyTrade;
  }

  // ---------------------------------------------------------------- one row

  /** How often a run completed a retry of row i. */
  function RetriesOf(cfg: TrackerConfig, l: Ledger, events: seq<Event>, i: nat): nat
    decreases |events|
  {
    if |events| == 0 then 0
    else
      (if CompletedRetry(cfg, l, events[0]) && events[0].index == i then 1 else 0)
      + RetriesOf(cfg, Apply(cfg, l, events[0]), events[1..], i)
  }

  lemma ApplyRow(cfg: TrackerConfig, l: Ledger, e: Event, i: nat)
    requires LedgerOk(cfg, l) && i < |l.unmatched|
    ensures var rows := Apply(cfg, l, e).unmatched;
            && i < |rows|
            && rows[i].externalFillId == l.unmatched[i].externalFillId
            && (!l.unmatched[i].status.Pending? ==> rows[i] == l.unmatched[i])
            && (rows[i].status.Pending? ==>
                  rows[i].attempts == l.unmatched[i].attempts + if CompletedRetry(cfg, l, e) && e.index == i then 1 else 0)
  {
    hide Ingest, Retry, LedgerOk;
    match e
    case Deliver(p, now) => DeliverAppends(cfg, l, p, now);
    case RetryRow(j, now) =>
      if Enabled(l, e) {
        RetryProgress(cfg, l, j, now);
      }
    case _ =>
  }

  lemma DeliverAppends(cfg: TrackerConfig, l: Ledger, p: Payload, now: int)
    ensures var rows := Ingest(cfg, l, p, true, now).0.unmatched;
            |rows| >= |l.unmatched| && rows[..|l.unmatched|] == l.unmatched
  {
    hide BuildExternalFillId, BuildFillAggregate, ApplyPositionBookFill, HasFillId, HasOutboxKey, UnmatchedIndex;
  }

  /**
   * Every pending row leaves the queue within the maximum number of attempts: a row still pending has
   * had fewer retries than that, each of them counted, and a settled row never changes again.
   */
  lemma {:induction false} PendingLeaves(cfg: TrackerConfig, l: Ledger, events: seq<Event>, i: nat)
    requires LedgerOk(cfg, l) && i < |l.unmatched|
    ensures var rows := Run(cfg, l, events).unmatched;
            && i < |rows|
            && (!l.unmatched[i].status.Pending? ==> rows[i] == l.unmatched[i])
            && (rows[i].status.Pending? ==>
                  rows[i].attempts == l.unmatched[i].attempts + RetriesOf(cfg, l, events, i) < cfg.unmatchedMaxAttempts)
    decreases |events|
  {
    hide LedgerOk, Apply, CompletedRetry;
    if |events| == 0 {
      PendingBound(cfg, l, i);
    } else {
      var next := Apply(cfg, l, events[0]);
      ApplyKeepsLedger(cfg, l, events[0]);
      ApplyRow(cfg, l, events[0], i);
      PendingLeaves(cfg, next, events[1..], i);
    }
  }

  lemma PendingBound(cfg: TrackerConfig, l: Ledger, i: nat)
    requires LedgerOk(cfg, l) && i < |l.unmatched|
    ensures l.unmatched[i].status.Pending? ==> l.unmatched[i].attempts < cfg.unmatchedMaxAttempts
    ensures l.unmatched[i].status.Resolved? ==> HasFillId(l.fills, l.unmatched[i].externalFillId)
  {
    hide BuildExternalFillId, HasFillId;
    assert UnmatchedRowOk(cfg, l.unmatched[i], l.fills);
  }

  /** In any run the retries of a row come at least the delay apart: each puts off the next one by that much. */
  lemma {:induction false} RetriesSpaced(cfg: TrackerConfig, l: Ledger, events: seq<Event>, i: nat)
    requires LedgerOk(cfg, l) && i < |l.unmatched|
    ensures var rows := Run(cfg, l, events).unmatched;
            i < |rows| && (rows[i].status.Pending? ==>
              && l.unmatched[i].nextRetryAt.Some? && rows[i].nextRetryAt.Some?
              && rows[i].nextRetryAt.value
                 >= l.unmatched[i].nextRetryAt.value + cfg.unmatchedRetryDelayMs * RetriesOf(cfg, l, events, i))
    decreases |events|
  {
    hide LedgerOk, Apply, CompletedRetry;
    PendingLeaves(cfg, l, events, i);
    PendingDated(cfg, l, i);
    if |events| > 0 && l.unmatched[i].status.Pending? {
      var next := Apply(cfg, l, events[0]);
      ApplyKeepsLedger(cfg, l, events[0]);
      ApplyPutsOff(cfg, l, events[0], i);
      RetriesSpaced(cfg, next, events[1..], i);
      PendingLeaves(cfg, next, events[1..], i);
      OneMore(cfg.unmatchedRetryDelayMs, RetriesOf(cfg, next, events[1..], i));
    }
  }

  lemma PendingDated(cfg: TrackerConfig, l: Ledger, i: nat)
    requires LedgerOk(cfg, l) && i < |l.unmatched|
    ensures l.unmatched[i].status.Pending? ==> l.unmatched[i].nextRetryAt.Some?
  {
    hide BuildExternalFillId, HasFillId;
    assert UnmatchedRowOk(cfg, l.unmatched[i], l.fills);
  }

  lemma ApplyPutsOff(cfg: TrackerConfig, l: Ledger, e: Event, i: nat)
    requires LedgerOk(cfg, l) && i < |l.unmatched| && l.unmatched[i].nextRetryAt.Some?
    ensures var rows := Apply(cfg, l, e).unmatched;
            i < |rows| && (rows[i].status.Pending? ==>
              && rows[i].nextRetryAt.Some?
              && rows[i].nextRetryAt.value
                 >= l.unmatched[i].nextRetryAt.value + if CompletedRetry(cfg, l, e) && e.index == i then cfg.unmatchedRetryDelayMs else 0)
  {
    hide Ingest, Retry, LedgerOk, Hopeless, Waits;
    match e
    case Deliver(p, now) => DeliverAppends(cfg, l, p, now);
    case RetryRow(j, now) =>
      if Enabled(l, e) {
        RetryProgress(cfg, l, j, now);
        RetryOutcome(cfg, l, j, now);
      }
    case _ =>
  }

  /** In every run, a row marked resolved has its fill row. */
  lemma ResolvedHasFill(cfg: TrackerConfig, l: Ledger, events: seq<Event>, i: nat)
    requires LedgerOk(cfg, l) && i < |Run(cfg, l, events).unmatched|
    requires Run(cfg, l, events).unmatched[i].status.Resolved?
    ensures HasFillId(Run(cfg, l, events).fills, Run(cfg, l, events).unmatched[i].externalFillId)
  {
    hide LedgerOk, Run;
    RunKeepsLedger(cfg, l, events);
    PendingBound(cfg, Run(cfg, l, events), i);
  }

  // ---------------------------------------------------------------- the row that never leaves

  /** A manual buy order of an account, without a requesting user, known to the broker by a handle. */
  function ManualBuy(handle: string): Order {
    Order(1, 1, None, None, "A", Some(handle), Some(handle), None, Buy, Accepted, SHARE, 0, None, None, None, None, None)
  }

  function ExecutionOf(handle: string, id: string): Payload {
    Payload("kiwoom", "mock", "A", "", handle, Some(id), "S", Buy, SHARE, 0, "t")
  }

  /** The first order opens the account's book; the execution of the second one arrives before the order does. */
  const STUCK_RUN := [InsertOrder(1, ManualBuy("U")), Deliver(ExecutionOf("U", "X"), 0)]
                     + [Deliver(ExecutionOf("V", "Y"), 0), InsertOrder(2, ManualBuy("V"))]

  lemma RunTwo(cfg: TrackerConfig, l: Ledger, d: Event, e: Event, rest: seq<Event>)
    ensures Run(cfg, l, [d, e] + rest) == Run(cfg, Apply(cfg, Apply(cfg, l, d), e), rest)
  {
    hide Apply;
    var events := [d, e] + rest;
    assert events[1..][0] == e && events[1..][1..] == rest;
    assert Run(cfg, l, events) == Run(cfg, Apply(cfg, l, d), events[1..]);
  }

  lemma HandleMatches(o: Order, handle: string, id: string)
    requires o.accountExternalId == "A" && handle in {"U", "V"}
    requires o.externalOrderId.Some? && o.brokerOrderId == o.externalOrderId
    ensures Matches(o, ExecutionOf(handle, id)) <==> o.externalOrderId == Some(handle)
  {
    assert Trim("A") == "A" && Trim("U") == "U" && Trim("V") == "V";
  }

  lemma FirstBuyOpensBook(cfg: TrackerConfig)
    ensures var l := Apply(cfg, Apply(cfg, EMPTY_LEDGER, STUCK_RUN[0]), STUCK_RUN[1]);
            && l.orders.Keys == {1} && l.orders[1].accountExternalId == "A"
            && l.orders[1].externalOrderId == Some("U") && l.orders[1].brokerOrderId == Some("U")
            && |l.fills| == 1 && l.fills[0].externalFillId == "X" && l.fills[0].orderId == 1
            && AccountBook(1, 1) in l.books && l.unmatched == []
  {
    hide BuildExternalFillId, AmountOf, AverageOf;
    var l := EMPTY_LEDGER.(orders := map[1 := ManualBuy("U")]);
    assert Apply(cfg, EMPTY_LEDGER, STUCK_RUN[0]) == l;
    HandleMatches(ManualBuy("U"), "U", "X");
    assert FindOrder(l.orders, ExecutionOf("U", "X")) == Some(1);
  }

  lemma ExecutionWaits(cfg: TrackerConfig, l: Ledger)
    requires l.orders.Keys == {1} && l.orders[1].accountExternalId == "A"
    requires l.orders[1].externalOrderId == Some("U") && l.orders[1].brokerOrderId == Some("U")
    requires |l.fills| == 1 && l.fills[0].orderId == 1 && l.unmatched == []
    ensures var p := ExecutionOf("V", "Y");
            Apply(cfg, Apply(cfg, l, STUCK_RUN[2]), STUCK_RUN[3])
            == l.(orders := l.orders[2 := ManualBuy("V")],
                  unmatched := [UnmatchedRow("Y", p, OrderNotFound, Pending, 0, Some(cfg.unmatchedRetryDelayMs), None, Some(OrderNotFound))])
  {
    hide BuildExternalFillId;
    HandleMatches(l.orders[1], "V", "Y");
    assert FindOrder(l.orders, ExecutionOf("V", "Y")).None?;
  }

  /**
   * Without the exception the claim fails: this run from the empty ledger leaves a pending row whose every
   * retry, once due, is aborted by the account's own book, so it stays pending for good.
   */
  lemma StuckRow(cfg: TrackerConfig, now: int)
    requires now >= cfg.unmatchedRetryDelayMs
    ensures var l := Run(cfg, EMPTY_LEDGER, STUCK_RUN);
            && LedgerOk(cfg, l) && Enabled(l, RetryRow(0, now))
            && Blocked(l, l.unmatched[0].payload) && Retry(cfg, l, 0, now) == (l, Aborted)
  {
    hide BuildExternalFillId, AmountOf, AverageOf, Run, Apply, Retry, LedgerOk;
    var l := Apply(cfg, Apply(cfg, EMPTY_LEDGER, STUCK_RUN[0]), STUCK_RUN[1]);
    FirstBuyOpensBook(cfg);
    ExecutionWaits(cfg, l);
    RunTwo(cfg, EMPTY_LEDGER, STUCK_RUN[0], STUCK_RUN[1], [STUCK_RUN[2], STUCK_RUN[3]]);
    RunTwo(cfg, l, STUCK_RUN[2], STUCK_RUN[3], []);
    assert STUCK_RUN == [STUCK_RUN[0], STUCK_RUN[1]] + [STUCK_RUN[2], STUCK_RUN[3]];
    assert [STUCK_RUN[2], STUCK_RUN[3]] == [STUCK_RUN[2], STUCK_RUN[3]] + [];
    EmptyLedgerOk(cfg);
    RunKeepsLedger(cfg, EMPTY_LEDGER, STUCK_RUN);
    var stuck := Run(cfg, EMPTY_LEDGER, STUCK_RUN);
    NothingRuns(cfg, Apply(cfg, Apply(cfg, l, STUCK_RUN[2]), STUCK_RUN[3]));
    MeetsTheBook(stuck);
    RetryProgress(cfg, stuck, 0, now);
  }

  lemma NothingRuns(cfg: TrackerConfig, l: Ledger)
    ensures Run(cfg, l, []) == l
  {
  }

  lemma MeetsTheBook(l: Ledger)
    requires l.orders.Keys == {1, 2} && l.orders[2] == ManualBuy("V")
    requires l.orders[1].accountExternalId == "A" && l.orders[1].externalOrderId == Some("U") && l.orders[1].brokerOrderId == Some("U")
    requires |l.fills| == 1 && l.fills[0].externalFillId == "X" && AccountBook(1, 1) in l.books
    ensures Blocked(l, ExecutionOf("V", "Y"))
  {
    hide BuildExternalFillId;
    HandleMatches(l.orders[1], "V", "Y");
    HandleMatches(l.orders[2], "V", "Y");
    assert FindOrder(l.orders, ExecutionOf("V", "Y")) == Some(2);
  }
}
