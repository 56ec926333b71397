/**
 * What the position books hold after a run: every book is the replay of the credited fills that went
 * to it, in credit order. Which book a fill goes to is named here from the columns of its order alone.
 */
module BookRuns {
  import opened Wrappers
  import opened ScaledDecimal
  import opened PositionBook
  import opened Orders
  import opened FillLedger
  import opened FillRuns

  // ---------------------------------------------------------------- the history of a book

  /**
   * The book one fill of an order belongs to, given the books there are: the strategy's, else the
   * requesting user's, else the account's own. A buy opens a missing book. A sell needs one, and a
   * user without a book sells from the account's own.
   */
  function ScopeFor(o: Order, side: Side, present: set<BookScope>): Option<BookScope> {
    var own := AccountBook(o.accountId, o.stockId);
    match o.accountStrategyId
    case Some(strategy) =>
      if strategy != 0 then OpenOrHeld(StrategyBook(o.accountId, o.stockId, strategy), side, present)
      else ManualScope(o, own, side, present)
    case None => ManualScope(o, own, side, present)
  }

  function ManualScope(o: Order, own: BookScope, side: Side, present: set<BookScope>): Option<BookScope> {
    match o.requestedByUserId
    case Some(user) =>
      var personal := UserBook(o.accountId, o.stockId, user);
      if side.Buy? || personal in present then Some(personal) else OpenOrHeld(own, side, present)
    case None => OpenOrHeld(own, side, present)
  }

  function OpenOrHeld(s: BookScope, side: Side, present: set<BookScope>): Option<BookScope> {
    if side.Buy? || s in present then Some(s) else None
  }

  function TradeOf(r: FillRow): Trade { Trade(r.fillType, r.quantity, r.amount) }

  function Before(history: map<BookScope, seq<Trade>>, s: BookScope): seq<Trade> {
    if s in history then history[s] else []
  }

  function Extended(history: map<BookScope, seq<Trade>>, scope: Option<BookScope>, t: Trade): map<BookScope, seq<Trade>> {
    match scope
    case None => history
    case Some(s) => history[s := Before(history, s) + [t]]
  }

  /** The trades of every book, in the order their fills were credited. */
  function History(orders: map<int, Order>, fills: seq<FillRow>): map<BookScope, seq<Trade>> {
    if fills == [] then map[]
    else
      var r := fills[|fills| - 1];
      var history := History(orders, fills[..|fills| - 1]);
      if r.orderId !in orders then history
      else Extended(history, ScopeFor(orders[r.orderId], r.fillType, history.Keys), TradeOf(r))
  }

  ghost predicate Replays(books: map<BookScope, Book>, history: map<BookScope, seq<Trade>>) {
    && books.Keys == history.Keys
    && forall s :: s in books ==> books[s] == Replay(history[s])
  }

  ghost predicate BooksReplay(l: Ledger) { Replays(l.books, History(l.orders, l.fills)) }

  // ---------------------------------------------------------------- one credited fill

  function Held(books: map<BookScope, Book>, s: BookScope): Book {
    if s in books then books[s] else EMPTY_BOOK
  }

  /** The fill goes to the book of its order's columns and to no other; a sell without one moves none. */
  lemma FillMovesOneBook(books: map<BookScope, Book>, o: Order, t: Trade)
    ensures var scope := ScopeFor(o, t.side, books.Keys);
            match ApplyPositionBookFill(books, o, t)
            case Updated(next) => scope.Some? && next == books[scope.value := ApplyTrade(Held(books, scope.value), t)]
            case MissingSell => scope.None?
            case Conflict => t.side.Buy?
  {
    hide ApplyTrade;
  }

  lemma MoveReplays(books: map<BookScope, Book>, history: map<BookScope, seq<Trade>>, s: BookScope, t: Trade)
    requires Replays(books, history)
    ensures Replays(books[s := ApplyTrade(Held(books, s), t)], Extended(history, Some(s), t))
  {
    hide ApplyTrade;
    var trades := Before(history, s) + [t];
    assert trades[..|trades| - 1] == Before(history, s);
    assert Replay(Before(history, s)) == Held(books, s);
  }

  // ---------------------------------------------------------------- what decides the history

  ghost predicate SameScopes(orders: map<int, Order>, next: map<int, Order>, fills: seq<FillRow>) {
    forall i :: 0 <= i < |fills| ==>
      fills[i].orderId in orders && fills[i].orderId in next && SameScope(orders[fills[i].orderId], next[fills[i].orderId])
  }

  lemma ScopeSame(a: Order, b: Order, side: Side, present: set<BookScope>)
    requires SameScope(a, b)
    ensures ScopeFor(a, side, present) == ScopeFor(b, side, present)
  {
  }

  lemma {:induction false} HistorySame(orders: map<int, Order>, next: map<int, Order>, fills: seq<FillRow>)
    requires SameScopes(orders, next, fills)
    ensures History(orders, fills) == History(next, fills)
  {
    hide ScopeFor;
    if fills != [] {
      var n := |fills| - 1;
      assert SameScopes(orders, next, fills[..n]);
      HistorySame(orders, next, fills[..n]);
      var id := fills[n].orderId;
      ScopeSame(orders[id], next[id], fills[n].fillType, History(orders, fills[..n]).Keys);
    }
  }

  lemma HistoryAppend(orders: map<int, Order>, fills: seq<FillRow>, r: FillRow)
    requires r.orderId in orders
    ensures var history := History(orders, fills);
            History(orders, fills + [r]) == Extended(history, ScopeFor(orders[r.orderId], r.fillType, history.Keys), TradeOf(r))
  {
    hide ScopeFor, Extended;
    assert (fills + [r])[..|fills|] == fills;
  }

  // ---------------------------------------------------------------- one transaction

  lemma AggregateKeepsScope(o: Order, p: Payload)
    requires BuildFillAggregate(o, p).Some?
    ensures SameScope(o, BuildFillAggregate(o, p).value.order)
    ensures var a := BuildFillAggregate(o, p).value; a.appliedAmount == AmountOf(a.appliedQty, p.filledPrice)
  {
    hide AmountOf, AverageOf, FillAnomaly, ResolveFillStatus, PreviousAmount;
  }

  lemma CreditReplays(cfg: TrackerConfig, l: Ledger, oid: int, p: Payload, a: Aggregate, now: int)
    requires FillsOk(l.orders, l.fills) && BooksReplay(l) && oid in l.orders
    requires BuildFillAggregate(l.orders[oid], p) == Some(a)
    ensures BooksReplay(Credit(cfg, l, oid, p, a, now).0)
  {
    hide BuildFillAggregate, AmountOf, ApplyPositionBookFill, History, ScopeFor, SaveUnmatched, InsertOutbox, BuildExternalFillId, ApplyTrade;
    var o := l.orders[oid];
    var r := NewFill(oid, o, p, a);
    var t := Trade(p.side, a.appliedQty, a.appliedAmount);
    var orders := l.orders[oid := a.order];
    AggregateKeepsScope(o, p);
    assert SameScopes(l.orders, orders, l.fills);
    HistorySame(l.orders, orders, l.fills);
    HistoryAppend(orders, l.fills, r);
    var history := History(l.orders, l.fills);
    ScopeSame(o, a.order, p.side, history.Keys);
    FillMovesOneBook(l.books, o, t);
    var scope := ScopeFor(o, p.side, history.Keys);
    if scope.Some? {
      MoveReplays(l.books, history, scope.value, t);
    }
  }

  lemma IngestReplays(cfg: TrackerConfig, l: Ledger, p: Payload, store: bool, now: int)
    requires FillsOk(l.orders, l.fills) && BooksReplay(l)
    ensures BooksReplay(Ingest(cfg, l, p, store, now).0)
  {
    hide BuildFillAggregate, Credit, BooksReplay, SaveUnmatched, BuildExternalFillId, HasFillId;
    var found := FindOrder(l.orders, p);
    UnmatchedOnly(cfg, l, p, OrderNotFound, None, store, now);
    if found.Some? {
      UnmatchedOnly(cfg, l, p, SideMismatch, found, store, now);
      UnmatchedOnly(cfg, l, p, InvalidFill, found, store, now);
      var built := BuildFillAggregate(l.orders[found.value], p);
      if built.Some? {
        CreditReplays(cfg, l, found.value, p, built.value, now);
      }
    }
  }

  lemma UnmatchedOnly(cfg: TrackerConfig, l: Ledger, p: Payload, reason: Anomaly, orderId: Option<int>, store: bool, now: int)
    requires BooksReplay(l)
    ensures BooksReplay(Refuse(cfg, l, p, reason, orderId, store, now).0)
  {
    hide SaveUnmatched, BuildExternalFillId, Replays, History;
  }

  // ---------------------------------------------------------------- runs

  lemma ApplyReplays(cfg: TrackerConfig, l: Ledger, e: Event)
    requires LedgerOk(cfg, l) && BooksReplay(l)
    ensures BooksReplay(Apply(cfg, l, e))
  {
    hide Ingest, History, Replays, OrdersOk, UnmatchedOk, OutboxOk, BooksOk, RetriedRow;
    if Enabled(l, e) {
      match e
      case Deliver(p, now) => IngestReplays(cfg, l, p, true, now);
      case RetryRow(i, now) => IngestReplays(cfg, l, l.unmatched[i].payload, false, now);
      case InsertOrder(oid, o) =>
        assert SameScopes(l.orders, Apply(cfg, l, e).orders, l.fills);
        HistorySame(l.orders, Apply(cfg, l, e).orders, l.fills);
      case Touch(oid, c) =>
        assert SameScopes(l.orders, Apply(cfg, l, e).orders, l.fills);
        HistorySame(l.orders, Apply(cfg, l, e).orders, l.fills);
      case TouchOutbox(i, row) =>
    }
  }

  /**
   * Over every run of deliveries, retries and other writers each book is exactly the replay of the
   * credited fills that went to it, in credit order, and there is a book just where some fill went.
   */
  lemma {:induction false} BooksAreReplays(cfg: TrackerConfig, l: Ledger, events: seq<Event>)
    requires LedgerOk(cfg, l) && BooksReplay(l)
    ensures BooksReplay(Run(cfg, l, events))
    decreases |events|
  {
    hide LedgerOk, BooksReplay, Apply;
    if |events| > 0 {
      ApplyReplays(cfg, l, events[0]);
      ApplyKeepsLedger(cfg, l, events[0]);
      BooksAreReplays(cfg, Apply(cfg, l, events[0]), events[1..]);
    }
  }

  lemma TradesOk(orders: map<int, Order>, fills: seq<FillRow>, s: BookScope)
    requires FillsOk(orders, fills) && s in History(orders, fills)
    ensures AllTradesOk(History(orders, fills)[s])
  {
    hide AmountOf, ScopeFor;
    if fills != [] {
      var n := |fills| - 1;
      assert FillsOk(orders, fills[..n]);
      assert FillRowOk(fills[n]);
      AmountNotNegative(fills[n].quantity, fills[n].price);
      if s in History(orders, fills[..n]) {
        TradesOk(orders, fills[..n], s);
      }
    }
  }

  /**
   * Every book of a run from the empty ledger in closed form: it holds what its fills bought less what
   * they sold, plus the deepest oversell, at no more than what they paid.
   */
  lemma BooksFromStart(cfg: TrackerConfig, events: seq<Event>, s: BookScope)
    ensures var l := Run(cfg, EMPTY_LEDGER, events);
            BooksReplay(l)
            && (s in l.books ==>
                  var trades := History(l.orders, l.fills)[s];
                  && l.books[s] == Replay(trades)
                  && l.books[s].quantity == Net(trades) - LowestNet(trades)
                  && l.books[s].cost <= Bought(trades))
  {
    hide Run, History;
    BooksAreReplaysFromEmpty(cfg, events);
    var l := Run(cfg, EMPTY_LEDGER, events);
    if s in l.books {
      TradesOk(l.orders, l.fills, s);
      ReplayQuantity(History(l.orders, l.fills)[s]);
      CostWithinBought(History(l.orders, l.fills)[s]);
    }
  }

  lemma BooksAreReplaysFromEmpty(cfg: TrackerConfig, events: seq<Event>)
    ensures var l := Run(cfg, EMPTY_LEDGER, events); LedgerOk(cfg, l) && BooksReplay(l)
  {
    hide Run;
    EmptyLedgerOk(cfg);
    RunKeepsLedger(cfg, EMPTY_LEDGER, events);
    BooksAreReplays(cfg, EMPTY_LEDGER, events);
  }
}
