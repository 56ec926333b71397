/** The position book: how one applied fill changes quantity, cost and average price. */
module PositionBook {
  import opened ScaledDecimal

  datatype Side = Buy | Sell

  /** Quantity at scale 8, cost and average price at scale 6. */
  datatype Book = Book(quantity: int, cost: int, average: int)

  datatype Trade = Trade(side: Side, quantity: int, amount: int)

  const EMPTY_BOOK := Book(0, 0, 0)

  function Max(a: int, b: int): (m: int)
    ensures m >= a && m >= b && (m == a || m == b)
  {
    if a >= b then a else b
  }

  function Min(a: int, b: int): (m: int)
    ensures m <= a && m <= b && (m == a || m == b)
  {
    if a <= b then a else b
  }

  function NextQuantity(b: Book, t: Trade): int {
    if t.side.Buy? then b.quantity + t.quantity else Max(0, b.quantity - t.quantity)
  }

  function NextCost(b: Book, t: Trade): int {
    if t.side.Buy? then b.cost + t.amount
    else if NextQuantity(b, t) == 0 then 0
    else Max(0, b.cost - AmountOf(t.quantity, b.average))
  }

  function ApplyTrade(b: Book, t: Trade): Book {
    var quantity := NextQuantity(b, t);
    var cost := NextCost(b, t);
    Book(quantity, cost, if quantity > 0 then AverageOf(cost, quantity) else 0)
  }

  /** What every book satisfies: nothing negative, an empty book owes nothing, the average is exact but for rounding. */
  predicate BookOk(b: Book) {
    && b.quantity >= 0 && b.cost >= 0 && b.average >= 0
    && (b.quantity == 0 ==> b.cost == 0 && b.average == 0)
    && (b.quantity > 0 ==> b.average * b.quantity <= b.cost * SHARE < (b.average + 1) * b.quantity)
  }

  predicate TradeOk(t: Trade) { t.quantity > 0 && t.amount >= 0 }

  lemma TradeKeepsBook(b: Book, t: Trade)
    requires BookOk(b) && TradeOk(t)
    ensures BookOk(ApplyTrade(b, t))
  {
    var next := ApplyTrade(b, t);
    if next.quantity > 0 {
      AverageIsFloor(next.cost, next.quantity);
    }
  }

  lemma FactorLess(f: int, q: int, x: int)
    requires 0 <= f <= q && 0 <= x
    ensures f * x <= q * x
  {
  }

  /** On a partial sell the clamp of the remaining cost at zero never acts. */
  lemma PartialSellCost(b: Book, t: Trade)
    requires BookOk(b) && TradeOk(t) && t.side.Sell? && t.quantity < b.quantity
    ensures 0 <= AmountOf(t.quantity, b.average) <= b.cost
    ensures ApplyTrade(b, t).cost == b.cost - AmountOf(t.quantity, b.average)
    ensures ApplyTrade(b, t).quantity == b.quantity - t.quantity
  {
    hide AmountOf;
    AmountIsFloor(t.quantity, b.average);
    FactorLess(t.quantity, b.quantity, b.average);
  }

  /**
   * Selling part of a position never lowers its average price, and raises it by less than the
   * rounding of one division and one multiplication explains.
   */
  lemma SellAverage(b: Book, t: Trade)
    requires BookOk(b) && TradeOk(t) && t.side.Sell? && t.quantity < b.quantity
    ensures var next := ApplyTrade(b, t);
            var left := b.quantity - t.quantity;
            b.average <= next.average && next.average * left < b.average * left + b.quantity + SHARE
  {
    hide AmountOf, AverageOf;
    var next := ApplyTrade(b, t);
    var left := b.quantity - t.quantity;
    var removed := AmountOf(t.quantity, b.average);
    PartialSellCost(b, t);
    AmountIsFloor(t.quantity, b.average);
    AverageIsFloor(next.cost, left);
    assert b.average * left == b.average * b.quantity - t.quantity * b.average;
    assert (b.average + 1) * b.quantity == b.average * b.quantity + b.quantity;
    assert b.average * left <= next.cost * SHARE;
    QuotientAtLeast(b.average, next.average, left, next.cost * SHARE);
  }

  lemma QuotientAtLeast(a: int, q: int, d: int, n: int)
    requires d > 0 && a * d <= n < (q + 1) * d
    ensures a <= q
  {
    assert (q + 1) * d - a * d == (q + 1 - a) * d;
    PositiveFactor(q + 1 - a, d);
  }

  lemma PositiveFactor(e: int, d: int)
    requires d > 0 && e * d > 0
    ensures e > 0
  {
  }

  // ---------------------------------------------------------------- runs

  function Replay(trades: seq<Trade>): Book {
    if trades == [] then EMPTY_BOOK
    else ApplyTrade(Replay(trades[..|trades| - 1]), trades[|trades| - 1])
  }

  predicate AllTradesOk(trades: seq<Trade>) { forall i :: 0 <= i < |trades| ==> TradeOk(trades[i]) }

  /** Over any buy/sell sequence from an empty book the book stays consistent. */
  lemma {:induction false} ReplayKeepsBook(trades: seq<Trade>)
    requires AllTradesOk(trades)
    ensures BookOk(Replay(trades))
  {
    if trades != [] {
      ReplayKeepsBook(trades[..|trades| - 1]);
      TradeKeepsBook(Replay(trades[..|trades| - 1]), trades[|trades| - 1]);
    }
  }

  /** Bought minus sold. */
  function Net(trades: seq<Trade>): int {
    if trades == [] then 0
    else
      var last := trades[|trades| - 1];
      Net(trades[..|trades| - 1]) + if last.side.Buy? then last.quantity else -last.quantity
  }

  /** The lowest value bought-minus-sold reached along the way, counting the start. */
  function LowestNet(trades: seq<Trade>): int {
    if trades == [] then 0 else Min(LowestNet(trades[..|trades| - 1]), Net(trades))
  }

  /**
   * The clamped quantity in closed form: bought minus sold, plus the deepest oversell so far. In
   * particular a sequence that never oversells holds exactly what was bought minus what was sold.
   */
  lemma {:induction false} ReplayQuantity(trades: seq<Trade>)
    requires AllTradesOk(trades)
    ensures Replay(trades).quantity == Net(trades) - LowestNet(trades)
    ensures LowestNet(trades) <= 0
  {
    if trades != [] {
      ReplayQuantity(trades[..|trades| - 1]);
    }
  }

  function Bought(trades: seq<Trade>): int {
    if trades == [] then 0
    else
      var last := trades[|trades| - 1];
      Bought(trades[..|trades| - 1]) + if last.side.Buy? then last.amount else 0
  }

  /** The cost on the book is never more than what was paid in. */
  lemma {:induction false} CostWithinBought(trades: seq<Trade>)
    requires AllTradesOk(trades)
    ensures Replay(trades).cost <= Bought(trades)
  {
    if trades != [] {
      var init := trades[..|trades| - 1];
      var last := trades[|trades| - 1];
      CostWithinBought(init);
      ReplayKeepsBook(init);
      if last.side.Sell? && NextQuantity(Replay(init), last) > 0 {
        PartialSellCost(Replay(init), last);
      }
    }
  }

  predicate OnlyBuys(trades: seq<Trade>) { forall i :: 0 <= i < |trades| ==> trades[i].side.Buy? }

  /** Buys after any history add exactly what they bought and paid. */
  lemma {:induction false} BuysAdd(history: seq<Trade>, buys: seq<Trade>)
    requires OnlyBuys(buys)
    ensures Replay(history + buys).quantity == Replay(history).quantity + Net(buys)
    ensures Replay(history + buys).cost == Replay(history).cost + Bought(buys)
    decreases |buys|
  {
    hide ApplyTrade;
    if buys == [] {
      assert history + buys == history;
    } else {
      var init, last := buys[..|buys| - 1], buys[|buys| - 1];
      assert (history + buys)[..|history + buys| - 1] == history + init;
      BuysAdd(history, init);
      BuyAdds(Replay(history + init), last);
    }
  }

  lemma BuyAdds(b: Book, t: Trade)
    requires t.side.Buy?
    ensures ApplyTrade(b, t).quantity == b.quantity + t.quantity && ApplyTrade(b, t).cost == b.cost + t.amount
  {
    hide AverageOf;
  }
}
