/**
 * What every run of the fill ledger keeps: orders agree with their fill rows, each execution is
 * credited at most once, books stay consistent, and the unmatched queue is honest about its rows.
 */
module FillRuns {
  import opened Wrappers
  import opened ScaledDecimal
  import opened PositionBook
  import opened Orders
  import opened FillLedger

  // ---------------------------------------------------------------- sums over the fill rows of one order

  function QuantityOf(r: FillRow, oid: int): int { if r.orderId == oid then r.quantity else 0 }

  function AmountIn(r: FillRow, oid: int): int { if r.orderId == oid then r.amount else 0 }

  function SumQuantity(fills: seq<FillRow>, oid: int): int {
    if fills == [] then 0 else SumQuantity(fills[..|fills| - 1], oid) + QuantityOf(fills[|fills| - 1], oid)
  }

  function SumAmount(fills: seq<FillRow>, oid: int): int {
    if fills == [] then 0 else SumAmount(fills[..|fills| - 1], oid) + AmountIn(fills[|fills| - 1], oid)
  }

  function CountFills(fills: seq<FillRow>, oid: int): nat {
    if fills == [] then 0
    else CountFills(fills[..|fills| - 1], oid) + if fills[|fills| - 1].orderId == oid then 1 else 0
  }

  lemma SumsAppend(fills: seq<FillRow>, r: FillRow, oid: int)
    ensures SumQuantity(fills + [r], oid) == SumQuantity(fills, oid) + QuantityOf(r, oid)
    ensures SumAmount(fills + [r], oid) == SumAmount(fills, oid) + AmountIn(r, oid)
    ensures CountFills(fills + [r], oid) == CountFills(fills, oid) + if r.orderId == oid then 1 else 0
  {
    assert (fills + [r])[..|fills|] == fills;
  }

  // ---------------------------------------------------------------- the invariant

  ghost predicate UniqueFills(fills: seq<FillRow>) {
    forall i, j :: 0 <= i < j < |fills| ==> fills[i].externalFillId != fills[j].externalFillId
  }

  ghost predicate FillRowOk(r: FillRow) {
    r.quantity > 0 && r.price >= 0 && r.amount == AmountOf(r.quantity, r.price)
  }

  ghost predicate FillsOk(orders: map<int, Order>, fills: seq<FillRow>) {
    && UniqueFills(fills)
    && forall i :: 0 <= i < |fills| ==> FillRowOk(fills[i]) && fills[i].orderId in orders
  }

  /** The order's running totals are the sums over its fill rows. */
  ghost predicate OrderOk(o: Order, oid: int, fills: seq<FillRow>) {
    && o.filledQuantity == SumQuantity(fills, oid)
    && 0 <= o.filledQuantity <= Max(0, o.quantity)
    && o.filledAmount.GetOr(0) == SumAmount(fills, oid) >= 0
    && if CountFills(fills, oid) == 0 then o.filledQuantity == 0
       else
         && o.filledQuantity > 0
         && o.filledAmount.Some?
         && o.remainingQuantity == Some(o.quantity - o.filledQuantity)
         && o.averageFillPrice == Some(AverageOf(SumAmount(fills, oid), SumQuantity(fills, oid)))
  }

  ghost predicate OrdersOk(orders: map<int, Order>, fills: seq<FillRow>) {
    forall oid :: oid in orders ==> OrderOk(orders[oid], oid, fills)
  }

  /** Every credited execution has its outbox row, in the same order. */
  ghost predicate OutboxOk(outbox: seq<OutboxRow>, fills: seq<FillRow>) {
    && |outbox| == |fills|
    && forall i :: 0 <= i < |fills| ==> outbox[i].externalFillId == fills[i].externalFillId
  }

  ghost predicate BooksOk(books: map<BookScope, Book>) {
    forall s :: s in books ==> BookOk(books[s])
  }

  ghost predicate UnmatchedRowOk(cfg: TrackerConfig, row: UnmatchedRow, fills: seq<FillRow>) {
    && row.externalFillId == IdOf(row.payload)
    && row.attempts >= 0
    && (row.status.Pending? ==> row.attempts < cfg.unmatchedMaxAttempts && row.nextRetryAt.Some?)
    && (row.status.Resolved? ==> HasFillId(fills, row.externalFillId))
  }

  ghost predicate UnmatchedOk(cfg: TrackerConfig, rows: seq<UnmatchedRow>, fills: seq<FillRow>) {
    && (forall i :: 0 <= i < |rows| ==> UnmatchedRowOk(cfg, rows[i], fills))
    && forall i, j :: 0 <= i < j < |rows| ==> rows[i].externalFillId != rows[j].externalFillId
  }

  ghost predicate LedgerOk(cfg: TrackerConfig, l: Ledger) {
    && FillsOk(l.orders, l.fills)
    && OrdersOk(l.orders, l.fills)
    && OutboxOk(l.outbox, l.fills)
    && BooksOk(l.books)
    && UnmatchedOk(cfg, l.unmatched, l.fills)
  }

  // ---------------------------------------------------------------- one credit

  lemma CountPositive(orders: map<int, Order>, fills: seq<FillRow>, oid: int)
    requires FillsOk(orders, fills)
    ensures SumAmount(fills, oid) >= 0 && SumQuantity(fills, oid) >= CountFills(fills, oid)
  {
    if fills != [] {
      var n := |fills| - 1;
      assert FillsOk(orders, fills[..n]);
      CountPositive(orders, fills[..n], oid);
      AmountIsFloor(fills[n].quantity, fills[n].price);
    }
  }

  /** What an applied execution leaves in the running totals. */
  lemma AppliedTotals(o: Order, p: Payload)
    requires 0 <= o.filledQuantity <= Max(0, o.quantity)
    requires BuildFillAggregate(o, p).Some? && BuildFillAggregate(o, p).value.appliedQty > 0
    ensures var a := BuildFillAggregate(o, p).value;
            && a.appliedQty == Min(p.filledQty, o.quantity - o.filledQuantity) && p.filledPrice >= 0
            && a.appliedAmount == AmountOf(a.appliedQty, p.filledPrice)
            && a.order.quantity == o.quantity
            && a.order.filledQuantity == o.filledQuantity + a.appliedQty <= o.quantity
            && a.order.filledAmount == Some(PreviousAmount(o) + a.appliedAmount)
            && a.order.remainingQuantity == Some(o.quantity - a.order.filledQuantity)
            && a.order.averageFillPrice == Some(AverageOf(PreviousAmount(o) + a.appliedAmount, a.order.filledQuantity))
  {
    hide AmountOf, AverageOf, FillAnomaly, ResolveFillStatus, PreviousAmount;
  }

  lemma AmountNotNegative(quantity: int, price: int)
    requires quantity >= 0 && price >= 0
    ensures AmountOf(quantity, price) >= 0
  {
    hide AmountOf;
    AmountIsFloor(quantity, price);
  }

  /** One more fill row, and the running totals moved by it. */
  lemma OneMoreFill(o: Order, oid: int, fills: seq<FillRow>, r: FillRow, next: Order)
    requires OrderOk(o, oid, fills) && r.orderId == oid && r.quantity > 0 && r.amount >= 0
    requires next.quantity == o.quantity && next.filledQuantity == o.filledQuantity + r.quantity <= o.quantity
    requires next.filledAmount == Some(SumAmount(fills, oid) + r.amount)
    requires next.remainingQuantity == Some(o.quantity - next.filledQuantity)
    requires next.averageFillPrice == Some(AverageOf(SumAmount(fills, oid) + r.amount, next.filledQuantity))
    ensures OrderOk(next, oid, fills + [r])
  {
    hide AverageOf, SumQuantity, SumAmount, CountFills;
    SumsAppend(fills, r, oid);
  }

  lemma WithinQuantity(o: Order, oid: int, fills: seq<FillRow>)
    requires OrderOk(o, oid, fills)
    ensures 0 <= o.filledQuantity <= Max(0, o.quantity)
  {
  }

  /** The arithmetic heart: the aggregate of an order that agrees with its rows agrees with one row more. */
  lemma AggregateCredits(o: Order, oid: int, fills: seq<FillRow>, p: Payload)
    requires OrderOk(o, oid, fills)
    requires BuildFillAggregate(o, p).Some? && BuildFillAggregate(o, p).value.appliedQty > 0
    ensures var a := BuildFillAggregate(o, p).value;
            && FillRowOk(NewFill(oid, o, p, a))
            && OrderOk(a.order, oid, fills + [NewFill(oid, o, p, a)])
            && a.order.quantity == o.quantity
            && a.appliedQty == Min(p.filledQty, o.quantity - o.filledQuantity)
            && a.order.filledQuantity == o.filledQuantity + a.appliedQty
            && a.appliedAmount == AmountOf(a.appliedQty, p.filledPrice) >= 0
  {
    hide AmountOf, AverageOf, SumQuantity, SumAmount, CountFills, BuildFillAggregate, PreviousAmount, OrderOk, IdOf;
    var a := BuildFillAggregate(o, p).value;
    WithinQuantity(o, oid, fills);
    AppliedTotals(o, p);
    AmountNotNegative(a.appliedQty, p.filledPrice);
    PreviousAmountOk(o, oid, fills);
    OneMoreFill(o, oid, fills, NewFill(oid, o, p, a), a.order);
  }

  lemma PreviousAmountOk(o: Order, oid: int, fills: seq<FillRow>)
    requires OrderOk(o, oid, fills)
    ensures PreviousAmount(o) == SumAmount(fills, oid)
  {
    if o.filledAmount.None? {
      assert o.filledQuantity == 0;
      ZeroAmount(o.averageFillPrice.GetOr(0));
    }
  }

  lemma ZeroAmount(price: int)
    ensures AmountOf(0, price) == 0
  {
    Pow10Constants();
    assert 0 * price * Pow10(6) == 0;
  }

  lemma CreditKeepsOrders(cfg: TrackerConfig, l: Ledger, oid: int, p: Payload, a: Aggregate)
    requires FillsOk(l.orders, l.fills) && OrdersOk(l.orders, l.fills) && oid in l.orders
    requires BuildFillAggregate(l.orders[oid], p) == Some(a) && a.appliedQty > 0
    requires !HasFillId(l.fills, IdOf(p))
    ensures var fills := l.fills + [NewFill(oid, l.orders[oid], p, a)];
            FillsOk(l.orders[oid := a.order], fills) && OrdersOk(l.orders[oid := a.order], fills)
  {
    hide AmountOf, AverageOf, BuildFillAggregate, IdOf;
    var r := NewFill(oid, l.orders[oid], p, a);
    AggregateCredits(l.orders[oid], oid, l.fills, p);
    forall other | other in l.orders && other != oid
      ensures OrderOk(l.orders[other], other, l.fills + [r])
    {
      SumsAppend(l.fills, r, other);
    }
  }

  lemma NewOutboxKey(outbox: seq<OutboxRow>, fills: seq<FillRow>, row: OutboxRow)
    requires OutboxOk(outbox, fills) && !HasFillId(fills, row.externalFillId)
    ensures InsertOutbox(outbox, row) == outbox + [row]
  {
    forall i | 0 <= i < |outbox| ensures outbox[i].externalFillId != row.externalFillId {
      assert fills[i].externalFillId == outbox[i].externalFillId;
    }
  }

  lemma BookStepOk(books: map<BookScope, Book>, o: Order, t: Trade)
    requires BooksOk(books) && TradeOk(t)
    ensures var r := ApplyPositionBookFill(books, o, t); r.Updated? ==> BooksOk(r.books)
  {
    hide ApplyTrade;
    TradeKeepsBook(EMPTY_BOOK, t);
    forall s | s in books ensures BookOk(ApplyTrade(books[s], t)) {
      TradeKeepsBook(books[s], t);
    }
  }

  lemma FillIdsGrow(fills: seq<FillRow>, r: FillRow, id: string)
    ensures HasFillId(fills + [r], id) <==> HasFillId(fills, id) || r.externalFillId == id
  {
    var more := fills + [r];
    if HasFillId(fills, id) {
      var i :| 0 <= i < |fills| && fills[i].externalFillId == id;
      assert more[i].externalFillId == id;
    }
    assert more[|fills|] == r;
  }

  lemma UnmatchedGrows(cfg: TrackerConfig, rows: seq<UnmatchedRow>, fills: seq<FillRow>, r: FillRow)
    requires UnmatchedOk(cfg, rows, fills)
    ensures UnmatchedOk(cfg, rows, fills + [r])
  {
    forall i | 0 <= i < |rows| ensures UnmatchedRowOk(cfg, rows[i], fills + [r]) {
      FillIdsGrow(fills, r, rows[i].externalFillId);
    }
  }

  lemma SaveKeepsUnmatched(cfg: TrackerConfig, rows: seq<UnmatchedRow>, fills: seq<FillRow>, p: Payload,
    reason: Anomaly, retryable: bool, orderId: Option<int>, now: int)
    requires UnmatchedOk(cfg, rows, fills)
    ensures UnmatchedOk(cfg, SaveUnmatched(cfg, rows, p, reason, retryable, orderId, now), fills)
  {
    hide BuildExternalFillId;
  }

  lemma CreditKeepsLedger(cfg: TrackerConfig, l: Ledger, oid: int, p: Payload, a: Aggregate, now: int)
    requires LedgerOk(cfg, l) && oid in l.orders
    requires BuildFillAggregate(l.orders[oid], p) == Some(a) && a.appliedQty > 0
    requires !HasFillId(l.fills, IdOf(p))
    ensures LedgerOk(cfg, Credit(cfg, l, oid, p, a, now).0)
  {
    hide BuildFillAggregate, BuildExternalFillId, AmountOf, HasFillId, HasOutboxKey, SaveUnmatched, ApplyPositionBookFill;
    hide OrdersOk, FillsOk, BooksOk, UnmatchedOk;
    var o := l.orders[oid];
    var r := NewFill(oid, o, p, a);
    CreditKeepsOrders(cfg, l, oid, p, a);
    NewOutboxKey(l.outbox, l.fills, NewOutbox(p, a));
    UnmatchedGrows(cfg, l.unmatched, l.fills, r);
    SaveKeepsUnmatched(cfg, l.unmatched, l.fills + [r], p, PositionBookMissingSell, false, Some(oid), now);
    CreditTradeOk(l, oid, p, a);
    BookStepOk(l.books, o, Trade(p.side, a.appliedQty, a.appliedAmount));
  }

  lemma CreditTradeOk(l: Ledger, oid: int, p: Payload, a: Aggregate)
    requires oid in l.orders && OrdersOk(l.orders, l.fills)
    requires BuildFillAggregate(l.orders[oid], p) == Some(a) && a.appliedQty > 0
    ensures TradeOk(Trade(p.side, a.appliedQty, a.appliedAmount))
  {
    hide AmountOf, AverageOf, BuildFillAggregate;
    AggregateCredits(l.orders[oid], oid, l.fills, p);
  }

  /** Every delivery, stored or retried, keeps the ledger consistent. */
  lemma IngestKeepsLedger(cfg: TrackerConfig, l: Ledger, p: Payload, store: bool, now: int)
    requires LedgerOk(cfg, l)
    ensures LedgerOk(cfg, Ingest(cfg, l, p, store, now).0)
  {
    hide LedgerOk, BuildExternalFillId, Credit;
    var found := FindOrder(l.orders, p);
    if found.None? {
      RefuseKeepsLedger(cfg, l, p, OrderNotFound, None, store, now);
    } else {
      var oid := found.value;
      RefuseKeepsLedger(cfg, l, p, SideMismatch, Some(oid), store, now);
      RefuseKeepsLedger(cfg, l, p, InvalidFill, Some(oid), store, now);
      var built := BuildFillAggregate(l.orders[oid], p);
      if built.Some? && built.value.appliedQty > 0 && !HasFillId(l.fills, IdOf(p)) {
        CreditKeepsLedger(cfg, l, oid, p, built.value, now);
      }
    }
  }

  lemma RefuseKeepsLedger(cfg: TrackerConfig, l: Ledger, p: Payload, reason: Anomaly, orderId: Option<int>, store: bool, now: int)
    requires LedgerOk(cfg, l)
    ensures LedgerOk(cfg, Refuse(cfg, l, p, reason, orderId, store, now).0)
  {
    hide OrdersOk, FillsOk, BooksOk, UnmatchedOk, SaveUnmatched;
    SaveKeepsUnmatched(cfg, l.unmatched, l.fills, p, reason, reason.OrderNotFound?, orderId, now);
  }

  // ---------------------------------------------------------------- what one delivery can do

  /** A manual buy without a requesting user, when the account already has its own book. */
  predicate MeetsAccountBook(l: Ledger, o: Order) {
    && !IsStrategyOrder(o) && o.requestedByUserId.None?
    && AccountBook(o.accountId, o.stockId) in l.books
  }

  /** The delivery finds an order of its side with room left, and is a first, well-formed delivery. */
  predicate Creditable(l: Ledger, p: Payload) {
    var found := FindOrder(l.orders, p);
    && found.Some?
    && var o := l.orders[found.value];
       && o.orderType == p.side
       && p.filledQty > 0 && p.filledPrice >= 0
       && o.filledQuantity < o.quantity
       && !HasFillId(l.fills, IdOf(p))
  }

  predicate Blocked(l: Ledger, p: Payload) {
    Creditable(l, p) && p.side.Buy? && MeetsAccountBook(l, l.orders[FindOrder(l.orders, p).value])
  }

  lemma AppliedExactlyWhen(o: Order, oid: int, fills: seq<FillRow>, p: Payload)
    requires OrderOk(o, oid, fills)
    ensures var built := BuildFillAggregate(o, p);
            && (built.Some? <==> p.filledQty > 0 && p.filledPrice >= 0)
            && (built.Some? ==> (built.value.appliedQty > 0 <==> o.filledQuantity < o.quantity))
  {
    hide AmountOf, AverageOf;
  }

  lemma ConflictExactlyWhen(l: Ledger, o: Order, t: Trade)
    ensures ApplyPositionBookFill(l.books, o, t).Conflict? <==> t.side.Buy? && MeetsAccountBook(l, o)
  {
  }

  /**
   * The acceptance rule in full: a delivery is credited exactly when it is creditable and no unique
   * violation undoes it, and the transaction aborts exactly in that remaining case.
   */
  lemma CreditedExactlyWhen(cfg: TrackerConfig, l: Ledger, p: Payload, store: bool, now: int)
    requires LedgerOk(cfg, l)
    ensures var outcome := Ingest(cfg, l, p, store, now).1;
            && (outcome.Aborted? <==> Blocked(l, p))
            && (outcome.Completed? && outcome.inserted <==> Creditable(l, p) && !Blocked(l, p))
  {
    hide BuildExternalFillId, BuildFillAggregate, ApplyPositionBookFill, SaveUnmatched, HasFillId, IsStrategyOrder;
    hide FillsOk, OutboxOk, BooksOk, UnmatchedOk, OrderOk;
    var found := FindOrder(l.orders, p);
    if found.Some? {
      var o := l.orders[found.value];
      AppliedExactlyWhen(o, found.value, l.fills, p);
      var built := BuildFillAggregate(o, p);
      if built.Some? {
        ConflictExactlyWhen(l, o, Trade(p.side, built.value.appliedQty, built.value.appliedAmount));
      }
    }
  }

  ghost predicate Effect(l: Ledger, next: Ledger, outcome: Outcome, id: string) {
    match outcome
    case Aborted => next == l
    case Completed(inserted, _, anomaly, _) =>
      if !inserted then
        next == l.(unmatched := next.unmatched) && (anomaly.None? ==> HasFillId(l.fills, id))
      else
        && !HasFillId(l.fills, id)
        && |next.fills| == |l.fills| + 1 && next.fills[..|l.fills|] == l.fills
        && next.fills[|l.fills|].externalFillId == id
        && |next.outbox| == |l.outbox| + 1 && next.outbox[..|l.outbox|] == l.outbox
        && next.outbox[|l.outbox|].externalFillId == id
        && next.orders.Keys == l.orders.Keys
  }

  /** What a credited delivery writes: its fill row and its unpublished outbox row, and the one order it fills. */
  ghost predicate Credited(l: Ledger, next: Ledger, p: Payload) {
    && |next.fills| == |l.fills| + 1 && |next.outbox| == |l.outbox| + 1
    && var fill := next.fills[|l.fills|];
       var oid := fill.orderId;
       && FindOrder(l.orders, p) == Some(oid) && oid in next.orders
       && var o := l.orders[oid];
          && next.orders == l.orders[oid := next.orders[oid]]
          && FilledBy(o, next.orders[oid], p)
          && fill.accountId == o.accountId && fill.stockId == o.stockId && fill.fillType == o.orderType == p.side
          && fill.quantity == Min(p.filledQty, o.quantity - o.filledQuantity)
          && fill.price == p.filledPrice && fill.amount == AmountOf(fill.quantity, p.filledPrice)
          && next.outbox[|l.outbox|]
             == OutboxRow(p.provider, p.marketEnv, IdOf(p), fill.quantity, fill.price, None, None, 0, None, None)
  }

  /** A credited delivery writes its fill row, its outbox row and its order, all as the execution and the order's columns say. */
  lemma CreditWrites(cfg: TrackerConfig, l: Ledger, p: Payload, store: bool, now: int)
    requires LedgerOk(cfg, l)
    ensures var (next, outcome) := Ingest(cfg, l, p, store, now);
            outcome.Completed? && outcome.inserted ==> Credited(l, next, p) && outcome.orderId == FindOrder(l.orders, p)
  {
    hide BuildExternalFillId, BuildFillAggregate, ApplyPositionBookFill, SaveUnmatched, HasFillId, HasOutboxKey, AmountOf, FilledBy;
    hide FillsOk, OutboxOk, BooksOk, UnmatchedOk;
    var found := FindOrder(l.orders, p);
    if found.Some? {
      var o := l.orders[found.value];
      WithinQuantity(o, found.value, l.fills);
      AppliedFill(o, p);
      var built := BuildFillAggregate(o, p);
      if built.Some? && built.value.appliedQty > 0 && !HasFillId(l.fills, IdOf(p)) {
        AppliedTotals(o, p);
        NewOutboxKey(l.outbox, l.fills, NewOutbox(p, built.value));
      }
    }
  }

  /**
   * A delivery that is not credited changes no order, fill, outbox row or book; a credited one adds
   * exactly one fill row and one outbox row for its id, which had none.
   */
  lemma DeliveryEffect(cfg: TrackerConfig, l: Ledger, p: Payload, store: bool, now: int)
    requires OutboxOk(l.outbox, l.fills)
    ensures Effect(l, Ingest(cfg, l, p, store, now).0, Ingest(cfg, l, p, store, now).1, IdOf(p))
  {
    hide BuildExternalFillId, BuildFillAggregate, ApplyPositionBookFill, SaveUnmatched, HasFillId, HasOutboxKey;
    var found := FindOrder(l.orders, p);
    if found.Some? {
      var built := BuildFillAggregate(l.orders[found.value], p);
      if built.Some? && !HasFillId(l.fills, IdOf(p)) {
        NewOutboxKey(l.outbox, l.fills, NewOutbox(p, built.value));
      }
    }
  }

  /** Delivering an execution again, at any later time, credits nothing and moves nothing. */
  lemma RedeliveryIsInert(cfg: TrackerConfig, l: Ledger, p: Payload, store: bool, now: int)
    requires LedgerOk(cfg, l) && HasFillId(l.fills, IdOf(p))
    ensures var (next, outcome) := Ingest(cfg, l, p, store, now);
            && outcome.Completed? && !outcome.inserted
            && next.orders == l.orders && next.fills == l.fills && next.outbox == l.outbox && next.books == l.books
  {
    hide Ingest, HasFillId, BuildExternalFillId, UnmatchedOk, OrdersOk, FillsOk, BooksOk;
    DeliveryEffect(cfg, l, p, store, now);
    CreditedExactlyWhen(cfg, l, p, store, now);
  }

  // ---------------------------------------------------------------- retries

  /** A retry never adds an unmatched row: its own row already holds its id. */
  lemma RetryKeepsRows(cfg: TrackerConfig, l: Ledger, i: nat, now: int)
    requires i < |l.unmatched| && UnmatchedOk(cfg, l.unmatched, l.fills)
    ensures Ingest(cfg, l, l.unmatched[i].payload, false, now).0.unmatched == l.unmatched
  {
    hide BuildExternalFillId, BuildFillAggregate, ApplyPositionBookFill, HasFillId, HasOutboxKey;
    assert UnmatchedRowOk(cfg, l.unmatched[i], l.fills);
  }

  lemma RetryKeepsLedger(cfg: TrackerConfig, l: Ledger, i: nat, now: int)
    requires LedgerOk(cfg, l) && i < |l.unmatched| && l.unmatched[i].status.Pending?
    ensures LedgerOk(cfg, Retry(cfg, l, i, now).0)
    ensures |Retry(cfg, l, i, now).0.unmatched| == |l.unmatched|
  {
    hide Ingest, BuildExternalFillId, HasFillId, OrdersOk, FillsOk, BooksOk;
    var row := l.unmatched[i];
    var (next, outcome) := Ingest(cfg, l, row.payload, false, now);
    IngestKeepsLedger(cfg, l, row.payload, false, now);
    RetryKeepsRows(cfg, l, i, now);
    DeliveryEffect(cfg, l, row.payload, false, now);
    if outcome.Completed? {
      if outcome.inserted {
        LastFillId(next.fills);
      }
      assert UnmatchedRowOk(cfg, row, next.fills);
      SettledRowOk(cfg, row, outcome, now, next.fills);
    }
  }

  lemma LastFillId(fills: seq<FillRow>)
    requires fills != []
    ensures HasFillId(fills, fills[|fills| - 1].externalFillId)
  {
  }

  lemma SettledRowOk(cfg: TrackerConfig, row: UnmatchedRow, outcome: Outcome, now: int, fills: seq<FillRow>)
    requires UnmatchedRowOk(cfg, row, fills) && row.status.Pending? && outcome.Completed?
    requires outcome.inserted || outcome.anomaly.None? ==> HasFillId(fills, row.externalFillId)
    ensures UnmatchedRowOk(cfg, RetriedRow(cfg, row, outcome, now), fills)
  {
    hide BuildExternalFillId;
  }

  // ---------------------------------------------------------------- runs

  /** The lifecycle columns other components write; they never touch the filled quantities. */
  datatype Lifecycle = Lifecycle(
    status: OrderStatus, externalOrderId: Option<string>, brokerOrderId: Option<string>,
    clientOrderId: Option<string>, acceptedAt: Option<string>)

  datatype Event =
    | Deliver(payload: Payload, now: int)
    | RetryRow(index: nat, now: int)
    | InsertOrder(oid: int, order: Order)
    | Touch(oid: int, lifecycle: Lifecycle)
    | TouchOutbox(index: nat, row: OutboxRow)

  /** Which external changes are steps at all: a fresh zero-filled order, an outbox row keeping its key. */
  predicate Enabled(l: Ledger, e: Event) {
    match e
    case Deliver(_, _) => true
    case RetryRow(i, now) => i < |l.unmatched| && l.unmatched[i].status.Pending? && Due(l.unmatched[i], now)
    case InsertOrder(oid, o) => oid !in l.orders && ZeroFilled(o) && (forall i :: 0 <= i < |l.fills| ==> l.fills[i].orderId != oid)
    case Touch(oid, _) => oid in l.orders
    case TouchOutbox(i, row) => i < |l.outbox| && row.externalFillId == l.outbox[i].externalFillId
  }

  function Apply(cfg: TrackerConfig, l: Ledger, e: Event): Ledger {
    if !Enabled(l, e) then l
    else
      match e
      case Deliver(p, now) => Ingest(cfg, l, p, true, now).0
      case RetryRow(i, now) => Retry(cfg, l, i, now).0
      case InsertOrder(oid, o) => l.(orders := l.orders[oid := o])
      case Touch(oid, c) =>
        l.(orders := l.orders[oid := l.orders[oid].(
             status := c.status, externalOrderId := c.externalOrderId, brokerOrderId := c.brokerOrderId,
             clientOrderId := c.clientOrderId, acceptedAt := c.acceptedAt)])
      case TouchOutbox(i, row) => l.(outbox := l.outbox[i := row])
  }

  /** 1 when the event credits an execution with this id. */
  function CreditsOf(cfg: TrackerConfig, l: Ledger, e: Event, id: string): nat {
    var outcome :=
      match e
      case Deliver(p, now) => (Ingest(cfg, l, p, true, now).1, IdOf(p))
      case RetryRow(i, now) =>
        if Enabled(l, e) then (Retry(cfg, l, i, now).1, IdOf(l.unmatched[i].payload)) else (Aborted, "")
      case _ => (Aborted, "");
    if outcome.0.Completed? && outcome.0.inserted && outcome.1 == id then 1 else 0
  }

  function Run(cfg: TrackerConfig, l: Ledger, events: seq<Event>): Ledger
    decreases |events|
  {
    if |events| == 0 then l else Run(cfg, Apply(cfg, l, events[0]), events[1..])
  }

  function TotalCredits(cfg: TrackerConfig, l: Ledger, events: seq<Event>, id: string): nat
    decreases |events|
  {
    if |events| == 0 then 0
    else CreditsOf(cfg, l, events[0], id) + TotalCredits(cfg, Apply(cfg, l, events[0]), events[1..], id)
  }

  const EMPTY_LEDGER := Ledger(map[], [], [], map[], [])

  lemma EmptyLedgerOk(cfg: TrackerConfig)
    ensures LedgerOk(cfg, EMPTY_LEDGER)
  {
  }

  lemma NoFillsNoSums(fills: seq<FillRow>, oid: int)
    requires forall i :: 0 <= i < |fills| ==> fills[i].orderId != oid
    ensures SumQuantity(fills, oid) == 0 && SumAmount(fills, oid) == 0 && CountFills(fills, oid) == 0
  {
  }

  lemma ApplyKeepsLedger(cfg: TrackerConfig, l: Ledger, e: Event)
    requires LedgerOk(cfg, l)
    ensures LedgerOk(cfg, Apply(cfg, l, e))
  {
    hide Ingest, Retry, UnmatchedOk, BooksOk;
    match e
    case Deliver(p, now) => IngestKeepsLedger(cfg, l, p, true, now);
    case RetryRow(i, now) =>
      if Enabled(l, e) {
        RetryKeepsLedger(cfg, l, i, now);
      }
    case InsertOrder(oid, o) =>
      if Enabled(l, e) {
        NoFillsNoSums(l.fills, oid);
      }
    case Touch(oid, c) =>
    case TouchOutbox(i, row) =>
  }

  /** Conservation over every run, with deliveries, retries and other writers in any order. */
  lemma {:induction false} RunKeepsLedger(cfg: TrackerConfig, l: Ledger, events: seq<Event>)
    requires LedgerOk(cfg, l)
    ensures LedgerOk(cfg, Run(cfg, l, events))
    decreases |events|
  {
    hide LedgerOk, Apply;
    if |events| > 0 {
      ApplyKeepsLedger(cfg, l, events[0]);
      RunKeepsLedger(cfg, Apply(cfg, l, events[0]), events[1..]);
    }
  }

  function Recorded(l: Ledger, id: string): nat { if HasFillId(l.fills, id) then 1 else 0 }

  lemma ApplyCredits(cfg: TrackerConfig, l: Ledger, e: Event, id: string)
    requires LedgerOk(cfg, l)
    ensures CreditsOf(cfg, l, e, id) == Recorded(Apply(cfg, l, e), id) - Recorded(l, id)
  {
    hide Ingest, HasFillId, UnmatchedOk, BooksOk, OrdersOk, FillsOk, BuildExternalFillId;
    match e
    case Deliver(p, now) => IngestCredits(cfg, l, p, true, now, id);
    case RetryRow(i, now) =>
      if Enabled(l, e) {
        IngestCredits(cfg, l, l.unmatched[i].payload, false, now, id);
      }
    case _ =>
  }

  lemma IngestCredits(cfg: TrackerConfig, l: Ledger, p: Payload, store: bool, now: int, id: string)
    requires LedgerOk(cfg, l)
    ensures var (next, outcome) := Ingest(cfg, l, p, store, now);
            (if outcome.Completed? && outcome.inserted && IdOf(p) == id then 1 else 0) == Recorded(next, id) - Recorded(l, id)
  {
    hide Ingest, HasFillId, UnmatchedOk, BooksOk, OrdersOk, FillsOk, BuildExternalFillId;
    var (next, outcome) := Ingest(cfg, l, p, store, now);
    DeliveryEffect(cfg, l, p, store, now);
    if outcome.Completed? && outcome.inserted {
      var r := next.fills[|l.fills|];
      assert next.fills == l.fills + [r];
      FillIdsGrow(l.fills, r, id);
    }
  }

  /** Exactly once: a run credits an id once if its row appears during the run, and never otherwise. */
  lemma {:induction false} CreditedExactlyOnce(cfg: TrackerConfig, l: Ledger, events: seq<Event>, id: string)
    requires LedgerOk(cfg, l)
    ensures TotalCredits(cfg, l, events, id) == Recorded(Run(cfg, l, events), id) - Recorded(l, id)
    ensures TotalCredits(cfg, l, events, id) <= 1
    decreases |events|
  {
    hide LedgerOk, Apply, CreditsOf;
    if |events| > 0 {
      ApplyCredits(cfg, l, events[0], id);
      ApplyKeepsLedger(cfg, l, events[0]);
      CreditedExactlyOnce(cfg, Apply(cfg, l, events[0]), events[1..], id);
    }
  }
}
