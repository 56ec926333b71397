/** How far the stored average fill price can be from the prices actually paid. */
module AverageFillPrice {
  import opened Wrappers
  import opened ScaledDecimal
  import opened PositionBook
  import opened Orders
  import opened FillLedger
  import opened FillRuns

  ghost predicate PricesWithin(fills: seq<FillRow>, oid: int, lo: int, hi: int) {
    forall i :: 0 <= i < |fills| && fills[i].orderId == oid ==> lo <= fills[i].price <= hi
  }

  /** Every fill of the order is a whole number of shares. */
  ghost predicate WholeShares(fills: seq<FillRow>, oid: int) {
    forall i :: 0 <= i < |fills| && fills[i].orderId == oid ==> fills[i].quantity % SHARE == 0
  }

  lemma RowBounds(r: FillRow, lo: int, hi: int)
    requires FillRowOk(r) && lo <= r.price <= hi
    ensures lo * r.quantity < (r.amount + 1) * SHARE && r.amount * SHARE <= hi * r.quantity
    ensures r.quantity % SHARE == 0 ==> lo * r.quantity <= r.amount * SHARE
  {
    hide AmountOf;
    AmountIsFloor(r.quantity, r.price);
    FactorLess(0, r.price - lo, r.quantity);
    FactorLess(0, hi - r.price, r.quantity);
    assert (r.price - lo) * r.quantity == r.quantity * r.price - lo * r.quantity;
    assert (hi - r.price) * r.quantity == hi * r.quantity - r.quantity * r.price;
    if r.quantity % SHARE == 0 {
      WholeMultiple(r.quantity / SHARE, r.price, r.quantity * r.price, r.amount);
    }
  }

  lemma WholeMultiple(shares: int, price: int, product: int, amount: int)
    requires product == (shares * SHARE) * price && amount * SHARE <= product < (amount + 1) * SHARE
    ensures amount * SHARE == product
  {
    assert product == (shares * price) * SHARE;
  }

  lemma SumStep(lo: int, hi: int, n: nat, q: int, a: int, qr: int, ar: int)
    requires lo * q <= a * SHARE + n * SHARE && a * SHARE <= hi * q
    requires lo * qr < (ar + 1) * SHARE && ar * SHARE <= hi * qr
    ensures lo * (q + qr) < (a + ar) * SHARE + (n + 1) * SHARE && (a + ar) * SHARE <= hi * (q + qr)
  {
  }

  lemma {:induction false} SumBounds(orders: map<int, Order>, fills: seq<FillRow>, oid: int, lo: int, hi: int)
    requires FillsOk(orders, fills) && PricesWithin(fills, oid, lo, hi)
    ensures SumAmount(fills, oid) * SHARE <= hi * SumQuantity(fills, oid)
    ensures lo * SumQuantity(fills, oid) <= SumAmount(fills, oid) * SHARE + CountFills(fills, oid) * SHARE
    ensures CountFills(fills, oid) > 0 ==>
              lo * SumQuantity(fills, oid) < SumAmount(fills, oid) * SHARE + CountFills(fills, oid) * SHARE
  {
    hide AmountOf, SumQuantity, SumAmount, CountFills;
    if fills == [] {
      NoFillsNoSums(fills, oid);
    } else {
      var init := fills[..|fills| - 1];
      var r := fills[|fills| - 1];
      assert FillsOk(orders, init) && fills == init + [r];
      SumBounds(orders, init, oid, lo, hi);
      SumsAppend(init, r, oid);
      if r.orderId == oid {
        RowBounds(r, lo, hi);
        SumStep(lo, hi, CountFills(init, oid), SumQuantity(init, oid), SumAmount(init, oid), r.quantity, r.amount);
      }
    }
  }

  lemma {:induction false} WholeSumBound(orders: map<int, Order>, fills: seq<FillRow>, oid: int, lo: int, hi: int)
    requires FillsOk(orders, fills) && PricesWithin(fills, oid, lo, hi) && WholeShares(fills, oid)
    ensures lo * SumQuantity(fills, oid) <= SumAmount(fills, oid) * SHARE
  {
    hide AmountOf, SumQuantity, SumAmount, CountFills;
    if fills == [] {
      NoFillsNoSums(fills, oid);
    } else {
      var init := fills[..|fills| - 1];
      var r := fills[|fills| - 1];
      assert FillsOk(orders, init) && fills == init + [r];
      WholeSumBound(orders, init, oid, lo, hi);
      SumsAppend(init, r, oid);
      if r.orderId == oid {
        RowBounds(r, lo, hi);
        assert lo * (SumQuantity(init, oid) + r.quantity) == lo * SumQuantity(init, oid) + lo * r.quantity;
      }
    }
  }

  /**
   * After any run, the stored average of a filled order is at most the highest price paid, falls
   * short of the lowest by no more than the rounding of its fills, and lies between the two when the
   * fills are whole shares.
   */
  lemma AverageBetweenPrices(cfg: TrackerConfig, l: Ledger, oid: int, lo: int, hi: int)
    requires LedgerOk(cfg, l) && oid in l.orders && l.orders[oid].filledQuantity > 0
    requires PricesWithin(l.fills, oid, lo, hi)
    ensures l.orders[oid].averageFillPrice.Some?
    ensures var o := l.orders[oid];
            var average := o.averageFillPrice.value;
            && average <= hi
            && lo * o.filledQuantity < (average + 1) * o.filledQuantity + CountFills(l.fills, oid) * SHARE
            && (WholeShares(l.fills, oid) ==> lo <= average)
  {
    hide AmountOf, AverageOf, SumQuantity, SumAmount, CountFills, BooksOk, UnmatchedOk, OutboxOk;
    var o := l.orders[oid];
    var q, a := o.filledQuantity, SumAmount(l.fills, oid);
    assert OrderOk(o, oid, l.fills);
    AverageIsFloor(a, q);
    var average := AverageOf(a, q);
    SumBounds(l.orders, l.fills, oid, lo, hi);
    QuotientAtLeast(average, hi, q, a * SHARE + q - 1) by {
      assert (hi + 1) * q == hi * q + q;
    }
    if WholeShares(l.fills, oid) {
      WholeSumBound(l.orders, l.fills, oid, lo, hi);
      QuotientAtLeast(lo, average, q, a * SHARE);
    }
  }
}
