/**
 * The tracker's fill ledger as a value: the tables one ingested execution reads and writes, and the
 * effect of each transaction on them. Insert-or-ignore appends a row unless its unique key is taken.
 */
module FillLedger {
  import opened Wrappers
  import opened IntSets
  import opened ScaledDecimal
  import opened PositionBook
  import opened Orders

  type PositiveInt = n: int | n > 0 witness 1

  datatype TrackerConfig = TrackerConfig(unmatchedRetryDelayMs: PositiveInt, unmatchedMaxAttempts: PositiveInt)

  datatype FillRow = FillRow(
    externalFillId: string, orderId: int, accountId: int, stockId: int,
    fillType: Side, quantity: int, price: int, amount: int)

  datatype OutboxRow = OutboxRow(
    provider: string, marketEnv: string, externalFillId: string, filledQty: int, filledPrice: int,
    liveAt: Option<int>, streamAt: Option<int>, attempts: nat, claimedAt: Option<int>, nextAt: Option<int>)

  datatype UnmatchedStatus = Pending | Resolved | DeadLetter

  datatype UnmatchedRow = UnmatchedRow(
    externalFillId: string, payload: Payload, reason: Anomaly, status: UnmatchedStatus, attempts: int,
    nextRetryAt: Option<int>, resolvedOrderId: Option<int>, lastError: Option<Anomaly>)

  /** The unique scopes of a position book row. */
  datatype BookScope =
    | StrategyBook(accountId: int, stockId: int, strategyId: int)
    | UserBook(accountId: int, stockId: int, userId: int)
    | AccountBook(accountId: int, stockId: int)

  datatype Ledger = Ledger(
    orders: map<int, Order>,
    fills: seq<FillRow>,
    outbox: seq<OutboxRow>,
    books: map<BookScope, Book>,
    unmatched: seq<UnmatchedRow>)

  /** The transaction's result; Aborted is the unique violation that rolls everything back. */
  datatype Outcome =
    | Completed(inserted: bool, orderId: Option<int>, anomaly: Option<Anomaly>, externalFillId: string)
    | Aborted

  // ---------------------------------------------------------------- lookups

  function BuildExternalFillId(p: Payload): string {
    p.provider + ":" + p.marketEnv + ":" + p.accountId + ":" + p.vendorOrderId + ":" + p.filledAt + ":"
    + ScaledToDecimal(p.filledQty, 8) + ":" + ScaledToDecimal(p.filledPrice, 6)
  }

  function IdOf(p: Payload): string { p.externalFillId.GetOr(BuildExternalFillId(p)) }

  predicate Matches(o: Order, p: Payload) {
    && o.accountExternalId == Trim(p.accountId)
    && if Trim(p.vendorOrderId) != "" then
         o.externalOrderId == Some(Trim(p.vendorOrderId)) || o.brokerOrderId == Some(Trim(p.vendorOrderId))
       else
         Trim(p.clientOrderId) != "" && o.clientOrderId == Some(Trim(p.clientOrderId))
  }

  function MatchingIds(orders: map<int, Order>, p: Payload): (ids: set<int>)
    ensures forall id :: id in ids <==> id in orders && Matches(orders[id], p)
  {
    set id | id in orders && Matches(orders[id], p)
  }

  /** The matching order with the highest id, as the ordered query returns it. */
  function FindOrder(orders: map<int, Order>, p: Payload): (r: Option<int>)
    ensures r.None? ==> forall id :: id in orders ==> !Matches(orders[id], p)
    ensures r.Some? ==> r.value in orders && Matches(orders[r.value], p)
    ensures r.Some? ==> forall id :: id in orders && Matches(orders[id], p) ==> id <= r.value
  {
    var ids := MatchingIds(orders, p);
    if ids == {} then None else Some(MaxOf(ids))
  }

  predicate HasFillId(fills: seq<FillRow>, id: string) {
    exists i :: 0 <= i < |fills| && fills[i].externalFillId == id
  }

  predicate HasOutboxKey(outbox: seq<OutboxRow>, provider: string, marketEnv: string, id: string) {
    exists i :: 0 <= i < |outbox| &&
      outbox[i].provider == provider && outbox[i].marketEnv == marketEnv && outbox[i].externalFillId == id
  }

  function UnmatchedIndex(rows: seq<UnmatchedRow>, id: string): (r: Option<nat>)
    ensures r.None? <==> forall i :: 0 <= i < |rows| ==> rows[i].externalFillId != id
    ensures r.Some? ==> r.value < |rows| && rows[r.value].externalFillId == id
  {
    if rows == [] then None
    else if rows[|rows| - 1].externalFillId == id then Some(|rows| - 1)
    else UnmatchedIndex(rows[..|rows| - 1], id)
  }

  // ---------------------------------------------------------------- position books

  predicate IsStrategyOrder(o: Order) { o.accountStrategyId.Some? && o.accountStrategyId.value != 0 }

  /** The scope under which a missing book is inserted. */
  function InsertScope(o: Order): BookScope {
    if IsStrategyOrder(o) then StrategyBook(o.accountId, o.stockId, o.accountStrategyId.value)
    else if o.requestedByUserId.Some? then UserBook(o.accountId, o.stockId, o.requestedByUserId.value)
    else AccountBook(o.accountId, o.stockId)
  }

  /** The existing book the fill applies to; a manual sell may fall back to the account's own book. */
  function FindBook(books: map<BookScope, Book>, o: Order, side: Side): Option<BookScope> {
    if IsStrategyOrder(o) then
      if InsertScope(o) in books then Some(InsertScope(o)) else None
    else if o.requestedByUserId.Some? && InsertScope(o) in books then Some(InsertScope(o))
    else if side.Sell? && AccountBook(o.accountId, o.stockId) in books then Some(AccountBook(o.accountId, o.stockId))
    else None
  }

  datatype BookResult = Updated(books: map<BookScope, Book>) | MissingSell | Conflict

  function ApplyPositionBookFill(books: map<BookScope, Book>, o: Order, t: Trade): BookResult {
    match FindBook(books, o, t.side)
    case Some(scope) => if scope in books then Updated(books[scope := ApplyTrade(books[scope], t)]) else Conflict
    case None =>
      if t.side.Sell? then MissingSell
      else if InsertScope(o) in books then Conflict
      else Updated(books[InsertScope(o) := ApplyTrade(EMPTY_BOOK, t)])
  }

  // ---------------------------------------------------------------- one transaction

  function SaveUnmatched(cfg: TrackerConfig, rows: seq<UnmatchedRow>, p: Payload, reason: Anomaly,
    retryable: bool, orderId: Option<int>, now: int): seq<UnmatchedRow>
  {
    if UnmatchedIndex(rows, IdOf(p)).Some? then rows
    else rows + [UnmatchedRow(IdOf(p), p, reason, if retryable then Pending else DeadLetter, 0,
                   if retryable then Some(now + cfg.unmatchedRetryDelayMs) else None, orderId, Some(reason))]
  }

  /** Leaves the fill uncredited, keeping it in the unmatched table when asked to. */
  function Refuse(cfg: TrackerConfig, l: Ledger, p: Payload, reason: Anomaly, orderId: Option<int>,
    store: bool, now: int): (Ledger, Outcome)
  {
    (if store then
       l.(unmatched := SaveUnmatched(cfg, l.unmatched, p, reason, reason.OrderNotFound?, orderId, now))
     else l,
     Completed(false, orderId, Some(reason), IdOf(p)))
  }

  function NewFill(oid: int, o: Order, p: Payload, a: Aggregate): FillRow {
    FillRow(IdOf(p), oid, o.accountId, o.stockId, p.side, a.appliedQty, p.filledPrice, AmountOf(a.appliedQty, p.filledPrice))
  }

  function NewOutbox(p: Payload, a: Aggregate): OutboxRow {
    OutboxRow(p.provider, p.marketEnv, IdOf(p), a.appliedQty, p.filledPrice, None, None, 0, None, None)
  }

  function InsertOutbox(outbox: seq<OutboxRow>, row: OutboxRow): seq<OutboxRow> {
    if HasOutboxKey(outbox, row.provider, row.marketEnv, row.externalFillId) then outbox else outbox + [row]
  }

  function Credit(cfg: TrackerConfig, l: Ledger, oid: int, p: Payload, a: Aggregate, now: int): (Ledger, Outcome)
    requires oid in l.orders
  {
    var o := l.orders[oid];
    var credited := l.(
      orders := l.orders[oid := a.order],
      fills := l.fills + [NewFill(oid, o, p, a)],
      outbox := InsertOutbox(l.outbox, NewOutbox(p, a)));
    match ApplyPositionBookFill(l.books, o, Trade(p.side, a.appliedQty, a.appliedAmount))
    case Updated(books) =>
      (credited.(books := books), Completed(true, Some(oid), a.anomaly, IdOf(p)))
    case MissingSell =>
      (credited.(unmatched := SaveUnmatched(cfg, l.unmatched, p, PositionBookMissingSell, false, Some(oid), now)),
       Completed(true, Some(oid), Some(a.anomaly.GetOr(PositionBookMissingSell)), IdOf(p)))
    case Conflict => (l, Aborted)
  }

  function Ingest(cfg: TrackerConfig, l: Ledger, p: Payload, store: bool, now: int): (Ledger, Outcome) {
    match FindOrder(l.orders, p)
    case None => Refuse(cfg, l, p, OrderNotFound, None, store, now)
    case Some(oid) =>
      var o := l.orders[oid];
      if o.orderType != p.side then Refuse(cfg, l, p, SideMismatch, Some(oid), store, now)
      else
        match BuildFillAggregate(o, p)
        case None => Refuse(cfg, l, p, InvalidFill, Some(oid), store, now)
        case Some(a) =>
          if a.appliedQty <= 0 then
            (l, Completed(false, Some(oid), Some(a.anomaly.GetOr(FillClamped)), IdOf(p)))
          else if HasFillId(l.fills, IdOf(p)) then
            (l, Completed(false, Some(oid), None, IdOf(p)))
          else Credit(cfg, l, oid, p, a, now)
  }

  // ---------------------------------------------------------------- the unmatched queue

  predicate Due(row: UnmatchedRow, now: int) { row.nextRetryAt.None? || row.nextRetryAt.value <= now }

  /** What a finished retry writes to its row. */
  function RetriedRow(cfg: TrackerConfig, row: UnmatchedRow, outcome: Outcome, now: int): UnmatchedRow
    requires outcome.Completed?
  {
    if outcome.inserted || outcome.anomaly.None? then
      row.(status := Resolved, resolvedOrderId := outcome.orderId, lastError := None)
    else
      var attempts := row.attempts + 1;
      if attempts >= cfg.unmatchedMaxAttempts || outcome.anomaly.value.SideMismatch? || outcome.anomaly.value.InvalidFill? then
        row.(status := DeadLetter, attempts := attempts, nextRetryAt := None, lastError := outcome.anomaly)
      else
        row.(attempts := attempts, nextRetryAt := Some(now + cfg.unmatchedRetryDelayMs), lastError := outcome.anomaly)
  }

  /** One step of a sweep: re-ingest without storing, then settle the row. An abort settles nothing. */
  function Retry(cfg: TrackerConfig, l: Ledger, i: nat, now: int): (Ledger, Outcome)
    requires i < |l.unmatched|
  {
    var row := l.unmatched[i];
    var (next, outcome) := Ingest(cfg, l, row.payload, false, now);
    if outcome.Aborted? || i >= |next.unmatched| then (next, outcome)
    else (next.(unmatched := next.unmatched[i := RetriedRow(cfg, row, outcome, now)]), outcome)
  }
}
