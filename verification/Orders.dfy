/** The order row the back end, the executor and the tracker share, and the arithmetic of one fill on it. */
module Orders {
  import opened Wrappers
  import opened ScaledDecimal
  import opened PositionBook

  datatype OrderStatus =
    | Created | Submitting | Requested | Accepted | PartiallyFilled | Filled
    | CancelRequested | CancelSubmitting | Cancelled | Rejected | Failed | Expired

  predicate Terminal(s: OrderStatus) {
    s.Filled? || s.Cancelled? || s.Rejected? || s.Failed? || s.Expired?
  }

  /** Quantities at scale 8, amounts and prices at scale 6, instants as the text they were delivered with. */
  datatype Order = Order(
    accountId: int,
    stockId: int,
    accountStrategyId: Option<int>,
    requestedByUserId: Option<int>,
    accountExternalId: string,
    externalOrderId: Option<string>,
    brokerOrderId: Option<string>,
    clientOrderId: Option<string>,
    orderType: Side,
    status: OrderStatus,
    quantity: int,
    filledQuantity: int,
    remainingQuantity: Option<int>,
    averageFillPrice: Option<int>,
    filledAmount: Option<int>,
    acceptedAt: Option<string>,
    filledAt: Option<string>)

  /** One execution as the broker stream delivers it. */
  datatype Payload = Payload(
    provider: string,
    marketEnv: string,
    accountId: string,
    clientOrderId: string,
    vendorOrderId: string,
    externalFillId: Option<string>,
    symbol: string,
    side: Side,
    filledQty: int,
    filledPrice: int,
    filledAt: string)

  datatype Anomaly =
    | OrderNotFound | SideMismatch | InvalidFill
    | OrderedQuantityZero | FillClamped | TerminalFill(status: OrderStatus)
    | PositionBookMissingSell

  function ResolveFillStatus(current: OrderStatus, orderedQty: int, remainingQty: int): OrderStatus {
    if current.Cancelled? || current.Rejected? || current.Failed? || current.Expired? then current
    else if orderedQty <= 0 then current
    else if remainingQty <= 0 then Filled
    else if current.CancelRequested? || current.CancelSubmitting? then current
    else PartiallyFilled
  }

  function FillAnomaly(current: OrderStatus, orderedQty: int, appliedQty: int): Option<Anomaly> {
    if orderedQty <= 0 then Some(OrderedQuantityZero)
    else if appliedQty <= 0 then Some(FillClamped)
    else if current.Cancelled? || current.Rejected? || current.Failed? || current.Expired? then Some(TerminalFill(current))
    else None
  }

  /** What one execution does to one order: the updated row, and how much of it was applied. */
  datatype Aggregate = Aggregate(order: Order, anomaly: Option<Anomaly>, appliedQty: int, appliedAmount: int)

  function PreviousAmount(o: Order): int {
    Max(0, o.filledAmount.GetOr(AmountOf(Max(0, o.filledQuantity), o.averageFillPrice.GetOr(0))))
  }

  /** None when the execution carries no positive quantity or a negative price. */
  function BuildFillAggregate(o: Order, p: Payload): Option<Aggregate> {
    if p.filledQty <= 0 || p.filledPrice < 0 then None
    else
      var orderedQty := Max(0, o.quantity);
      var previousQty := Max(0, o.filledQuantity);
      var nextQty := Min(orderedQty, previousQty + p.filledQty);
      var appliedQty := Max(0, nextQty - previousQty);
      var appliedAmount := AmountOf(appliedQty, p.filledPrice);
      var nextAmount := PreviousAmount(o) + appliedAmount;
      var remainingQty := Max(0, orderedQty - nextQty);
      var anomaly := FillAnomaly(o.status, orderedQty, appliedQty);
      var next := o.(
        status := ResolveFillStatus(o.status, orderedQty, remainingQty),
        brokerOrderId := OrElse(o.brokerOrderId, Some(p.vendorOrderId)),
        externalOrderId := OrElse(o.externalOrderId, Some(p.vendorOrderId)),
        clientOrderId := OrElse(o.clientOrderId, if p.clientOrderId == "" then None else Some(p.clientOrderId)),
        filledQuantity := nextQty,
        remainingQuantity := Some(remainingQty),
        averageFillPrice := if nextQty > 0 then Some(AverageOf(nextAmount, nextQty)) else None,
        filledAmount := Some(nextAmount),
        acceptedAt := if anomaly.Some? && anomaly.value.TerminalFill? then o.acceptedAt
                      else OrElse(o.acceptedAt, Some(p.filledAt)),
        filledAt := if remainingQty <= 0 then Some(p.filledAt) else o.filledAt);
      Some(Aggregate(next, anomaly, appliedQty, appliedAmount))
  }

  /** Cancelled, rejected, failed or expired: closed without being filled. */
  predicate ClosedUnfilled(s: OrderStatus) { s.Cancelled? || s.Rejected? || s.Failed? || s.Expired? }

  /** What a fill may leave in the status column, from the columns alone: only a complete fill closes an open order. */
  predicate StatusAfterFill(before: Order, after: Order) {
    if ClosedUnfilled(before.status) then after.status == before.status
    else if after.filledQuantity == before.quantity then after.status.Filled?
    else if before.status.CancelRequested? || before.status.CancelSubmitting? then after.status == before.status
    else after.status.PartiallyFilled?
  }

  /** The columns a fill sets once and keeps: the handles, the client's id and the acceptance time. */
  predicate ColumnsAfterFill(before: Order, after: Order, p: Payload) {
    && after.brokerOrderId == (if before.brokerOrderId.Some? then before.brokerOrderId else Some(p.vendorOrderId))
    && after.externalOrderId == (if before.externalOrderId.Some? then before.externalOrderId else Some(p.vendorOrderId))
    && (before.clientOrderId.Some? || p.clientOrderId == "" ==> after.clientOrderId == before.clientOrderId)
    && (before.clientOrderId.None? && p.clientOrderId != "" ==> after.clientOrderId == Some(p.clientOrderId))
    && (before.acceptedAt.Some? || ClosedUnfilled(before.status) ==> after.acceptedAt == before.acceptedAt)
    && (before.acceptedAt.None? && !ClosedUnfilled(before.status) ==> after.acceptedAt == Some(p.filledAt))
    && after.filledAt == (if after.filledQuantity == before.quantity then Some(p.filledAt) else before.filledAt)
  }

  predicate SameScope(a: Order, b: Order) {
    && a.accountId == b.accountId && a.stockId == b.stockId && a.orderType == b.orderType
    && a.accountStrategyId == b.accountStrategyId && a.requestedByUserId == b.requestedByUserId
    && a.accountExternalId == b.accountExternalId
  }

  /** The order as one applied execution leaves it, column by column; what was paid is summed up over the fill rows. */
  predicate FilledBy(before: Order, after: Order, p: Payload) {
    && after.quantity == before.quantity && SameScope(before, after)
    && after.filledQuantity == Min(before.quantity, before.filledQuantity + p.filledQty) > before.filledQuantity
    && after.remainingQuantity == Some(before.quantity - after.filledQuantity)
    && StatusAfterFill(before, after) && ColumnsAfterFill(before, after, p)
  }

  /** An execution applies to an order exactly when it is well formed and the order has room for some of it. */
  lemma AppliedFill(o: Order, p: Payload)
    requires 0 <= o.filledQuantity <= Max(0, o.quantity)
    ensures var built := BuildFillAggregate(o, p);
            && (built.Some? && built.value.appliedQty > 0 <==> p.filledQty > 0 && p.filledPrice >= 0 && o.filledQuantity < o.quantity)
            && (built.Some? && built.value.appliedQty > 0 ==>
                  && FilledBy(o, built.value.order, p)
                  && built.value.appliedQty == built.value.order.filledQuantity - o.filledQuantity
                  && built.value.appliedAmount == AmountOf(built.value.appliedQty, p.filledPrice)
                  && (built.value.anomaly.Some? <==> ClosedUnfilled(o.status)))
  {
    hide AmountOf, AverageOf, PreviousAmount;
  }

  /** What had been paid for an order: its amount column, or without one its quantity at its average price. */
  function PaidBefore(o: Order): int {
    match o.filledAmount
    case Some(amount) => amount
    case None =>
      match o.averageFillPrice
      case Some(average) => AmountOf(o.filledQuantity, average)
      case None => 0
  }

  /** An applied execution adds its amount to what had been paid, and the average is that sum over the filled quantity. */
  lemma AppliedAmount(o: Order, p: Payload)
    requires 0 <= o.filledQuantity <= Max(0, o.quantity) && PaidBefore(o) >= 0
    requires BuildFillAggregate(o, p).Some? && BuildFillAggregate(o, p).value.appliedQty > 0
    ensures var next := BuildFillAggregate(o, p).value.order;
            var paid := PaidBefore(o) + AmountOf(next.filledQuantity - o.filledQuantity, p.filledPrice);
            next.filledAmount == Some(paid) && next.averageFillPrice == Some(AverageOf(paid, next.filledQuantity))
  {
    hide AmountOf, AverageOf, FillAnomaly, ResolveFillStatus;
    AmountOfNothing(o.filledQuantity);
  }

  lemma AmountOfNothing(quantity: int)
    ensures AmountOf(quantity, 0) == 0
  {
    Pow10Constants();
  }

  /** The order has not been filled at all, which is how the back end inserts it. */
  predicate ZeroFilled(o: Order) {
    o.filledQuantity == 0 && o.filledAmount.GetOr(0) == 0
  }
}
