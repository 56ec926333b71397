/** The order table and the two executor workers as sequential code over it, tied to the protocol's steps. */
module OrderWorkers {
  import opened Wrappers
  import opened ScaledDecimal
  import opened Orders
  import opened OrderProtocol

  datatype VendorAnswer = Acked(handle: string) | Refused | Errored

  class OrderTable {
    var rows: map<int, Order>

    constructor (rows: map<int, Order>)
      ensures this.rows == rows
    {
      this.rows := rows;
    }

    /** Flips one row from the status a pickup drains to its claim status; a row claimed elsewhere is not returned. */
    method ClaimById(oid: int, from: OrderStatus, claimed: OrderStatus) returns (order: Option<Order>)
      modifies this
      ensures order.Some? <==> oid in old(rows) && old(rows)[oid].status == from
      ensures order.Some? ==> order.value == old(rows)[oid].(status := claimed) && rows == old(rows)[oid := order.value]
      ensures order.None? ==> rows == old(rows)
    {
      order := None;
      if oid in rows && rows[oid].status == from {
        rows := rows[oid := rows[oid].(status := claimed)];
        order := Some(rows[oid]);
      }
    }

    /** The status compare-and-set with the columns to write along with it. */
    method UpdateStatusFromExpected(oid: int, expected: OrderStatus, next: OrderStatus, handle: Option<string>) returns (updated: bool)
      modifies this
      ensures updated <==> oid in old(rows) && old(rows)[oid].status == expected
      ensures updated ==>
                rows == old(rows)[oid := if handle.Some? then old(rows)[oid].(status := next, brokerOrderId := handle, externalOrderId := handle)
                                         else old(rows)[oid].(status := next)]
      ensures !updated ==> rows == old(rows)
    {
      updated := oid in rows && rows[oid].status == expected;
      if updated {
        var row := rows[oid].(status := next);
        if handle.Some? {
          row := row.(brokerOrderId := handle, externalOrderId := handle);
        }
        rows := rows[oid := row];
      }
    }

    method AttachBrokerOrderIdFromExpected(oid: int, handle: string) returns (attached: bool)
      modifies this
      ensures oid in old(rows) ==> rows == old(rows)[oid := AttachHandle(old(rows)[oid], handle)]
      ensures oid !in old(rows) ==> rows == old(rows) && !attached
      ensures attached <==> rows != old(rows)
      ensures attached <==>
                && oid in old(rows) && Trim(handle) != ""
                && (old(rows)[oid].status.Submitting? || old(rows)[oid].status.CancelRequested?
                    || old(rows)[oid].status.CancelSubmitting?)
                && old(rows)[oid].brokerOrderId.None? && old(rows)[oid].externalOrderId.None?
      ensures attached && oid in old(rows) ==> HandleOf(rows[oid]) == Some(handle) && rows[oid].status == old(rows)[oid].status
    {
      attached := false;
      if oid in rows {
        var row := rows[oid];
        if (row.status.Submitting? || row.status.CancelRequested? || row.status.CancelSubmitting?)
           && Trim(handle) != "" && row.brokerOrderId.None? && row.externalOrderId.None?
        {
          row := row.(brokerOrderId := Some(handle), externalOrderId := Some(handle));
          attached := true;
        }
        rows := rows[oid := row];
      }
    }

    /**
     * A place worker without interference. `prepared` says whether the request could be built and the
     * lock taken; `calls` counts the broker calls made.
     */
    method PlaceClaimedOrder(oid: int, prepared: bool, answer: VendorAnswer) returns (calls: nat)
      requires oid in rows
      modifies this
      ensures rows == old(rows)[oid := PlacedRow(old(rows)[oid], prepared, answer)]
      ensures calls == if prepared then 1 else 0
    {
      calls := 0;
      if !prepared {
        var _ := UpdateStatusFromExpected(oid, Submitting, Failed, None);
      } else {
        calls := calls + 1;
        match answer
        case Acked(handle) =>
          var updated := UpdateStatusFromExpected(oid, Submitting, Accepted, Some(handle));
          if !updated {
            var _ := AttachBrokerOrderIdFromExpected(oid, handle);
          }
        case Refused =>
          var _ := UpdateStatusFromExpected(oid, Submitting, Rejected, None);
        case Errored =>
          var _ := UpdateStatusFromExpected(oid, Submitting, Failed, None);
      }
      assert old(rows) == old(rows)[oid := old(rows)[oid]];
    }

    /**
     * A cancel worker from the handle its polling found; without one it closes the order unsent.
     * `prepared` and `acked` are how the lock and the broker answered.
     */
    method CancelClaimedOrder(oid: int, handle: Option<string>, prepared: bool, acked: bool) returns (calls: nat)
      requires oid in rows
      modifies this
      ensures rows == old(rows)[oid := CancelledRow(old(rows)[oid], handle, prepared, acked)]
      ensures calls == if Usable(handle) && prepared then 1 else 0
    {
      calls := 0;
      if !Usable(handle) {
        var _ := UpdateStatusFromExpected(oid, CancelSubmitting, Cancelled, None);
      } else if !prepared {
        var _ := UpdateStatusFromExpected(oid, CancelSubmitting, Failed, None);
      } else {
        calls := calls + 1;
        var _ := UpdateStatusFromExpected(oid, CancelSubmitting, if acked then Cancelled else Failed, None);
      }
      assert old(rows) == old(rows)[oid := old(rows)[oid]];
    }
  }

  function PlacedRow(o: Order, prepared: bool, answer: VendorAnswer): Order {
    if !prepared then MoveStatus(o, Submitting, Failed)
    else
      match answer
      case Acked(handle) => if o.status.Submitting? then Accept(o, handle) else AttachHandle(o, handle)
      case Refused => MoveStatus(o, Submitting, Rejected)
      case Errored => MoveStatus(o, Submitting, Failed)
  }

  function CancelledRow(o: Order, handle: Option<string>, prepared: bool, acked: bool): Order {
    MoveStatus(o, CancelSubmitting, if !Usable(handle) || (prepared && acked) then Cancelled else Failed)
  }

  /** A worker's actions on one row, in order, as the protocol takes them; None when an action is not its next. */
  function WorkAll(task: Task, o: Order, events: seq<WorkEvent>, clock: nat): Option<Effect>
    decreases |events|
  {
    if |events| == 0 then Some(Effect(task, o))
    else
      var effect := if IsPlace(task) then WorkPlace(task, o, events[0]) else WorkCancel(task, o, events[0], clock);
      if effect.None? then None else WorkAll(effect.value.task, effect.value.row, events[1..], clock)
  }

  function PlaceEvents(o: Order, prepared: bool, answer: VendorAnswer): seq<WorkEvent> {
    if !prepared then [GiveUp, Write]
    else
      match answer
      case Acked(handle) => [Call, VendorAck(handle), Write, Write]
      case Refused => [Call, VendorError(true), Write]
      case Errored => [Call, VendorError(false), Write]
  }

  lemma WorkStep(task: Task, o: Order, e: WorkEvent, rest: seq<WorkEvent>, clock: nat)
    ensures var effect := if IsPlace(task) then WorkPlace(task, o, e) else WorkCancel(task, o, e, clock);
            WorkAll(task, o, [e] + rest, clock)
            == if effect.None? then None else WorkAll(effect.value.task, effect.value.row, rest, clock)
  {
    assert ([e] + rest)[1..] == rest;
  }

  /** The sequential place worker is a run of the protocol's place worker, from claim to done. */
  lemma PlaceIsProtocol(o: Order, oid: int, prepared: bool, answer: VendorAnswer, clock: nat)
    ensures WorkAll(PlaceClaimed(oid), o, PlaceEvents(o, prepared, answer), clock)
         == Some(Effect(PlaceDone(oid), PlacedRow(o, prepared, answer)))
  {
    hide WorkAll, AttachHandle;
    var done := PlaceDone(oid);
    var row := PlacedRow(o, prepared, answer);
    WorkNothing(done, row, clock);
    if !prepared {
      WorkStep(PlaceClaimed(oid), o, GiveUp, [Write], clock);
      WorkStep(PlaceFailing(oid, false), o, Write, [], clock);
      assert [GiveUp] + [Write] == [GiveUp, Write] && [Write] + [] == [Write];
    } else {
      match answer
      case Acked(handle) =>
        var next := if o.status.Submitting? then PlacePublishing(oid) else PlaceAttaching(oid, handle);
        var mid := if o.status.Submitting? then Accept(o, handle) else o;
        assert [Call] + ([VendorAck(handle)] + ([Write] + ([Write] + []))) == [Call, VendorAck(handle), Write, Write];
        WorkStep(PlaceClaimed(oid), o, Call, [VendorAck(handle)] + ([Write] + ([Write] + [])), clock);
        WorkStep(PlaceCalling(oid), o, VendorAck(handle), [Write] + ([Write] + []), clock);
        WorkStep(PlaceAcked(oid, handle), o, Write, [Write] + [], clock);
        WorkStep(next, mid, Write, [], clock);
      case _ =>
        var rejected := answer.Refused?;
        assert [Call] + ([VendorError(rejected)] + ([Write] + [])) == [Call, VendorError(rejected), Write];
        WorkStep(PlaceClaimed(oid), o, Call, [VendorError(rejected)] + ([Write] + []), clock);
        WorkStep(PlaceCalling(oid), o, VendorError(rejected), [Write] + [], clock);
        WorkStep(PlaceFailing(oid, rejected), o, Write, [], clock);
    }
  }

  function CancelStart(oid: int, handle: Option<string>, clock: nat): Task {
    if Usable(handle) then CancelReady(oid, handle.value) else CancelUnplaced(oid, clock, handle)
  }

  function CancelEvents(handle: Option<string>, prepared: bool, acked: bool): seq<WorkEvent> {
    if !Usable(handle) then [Write]
    else if !prepared then [GiveUp, Write]
    else [Call, if acked then VendorAck("") else VendorError(false), Write]
  }

  /** The sequential cancel worker is a run of the protocol's cancel worker, from its last look to done. */
  lemma CancelIsProtocol(o: Order, oid: int, handle: Option<string>, prepared: bool, acked: bool, clock: nat)
    ensures WorkAll(CancelStart(oid, handle, clock), o, CancelEvents(handle, prepared, acked), clock)
         == Some(Effect(CancelDone(oid), CancelledRow(o, handle, prepared, acked)))
  {
    hide WorkAll;
    WorkNothing(CancelDone(oid), CancelledRow(o, handle, prepared, acked), clock);
    var start := CancelStart(oid, handle, clock);
    if !Usable(handle) {
      WorkStep(start, o, Write, [], clock);
      assert [Write] + [] == [Write];
    } else if !prepared {
      WorkStep(start, o, GiveUp, [Write] + [], clock);
      WorkStep(CancelFailing(oid), o, Write, [], clock);
      assert [GiveUp] + ([Write] + []) == [GiveUp, Write];
    } else {
      var answer := if acked then VendorAck("") else VendorError(false);
      WorkStep(start, o, Call, [answer] + ([Write] + []), clock);
      WorkStep(CancelCalling(oid, handle.value), o, answer, [Write] + [], clock);
      WorkStep(if acked then CancelAcked(oid) else CancelFailing(oid), o, Write, [], clock);
      assert [Call] + ([answer] + ([Write] + [])) == [Call, answer, Write];
    }
  }

  lemma WorkNothing(task: Task, o: Order, clock: nat)
    ensures WorkAll(task, o, [], clock) == Some(Effect(task, o))
  {
  }

  // ---------------------------------------------------------------- waiting for a handle

  /** The first look that ends the wait: a usable handle, or a row that left the claim status. */
  predicate EndsWait(look: Order) { Usable(HandleOf(look)) || !look.status.CancelSubmitting? }

  /**
   * Polls until the deadline: `looks` are the rows the successive polls read, as many as fit. It
   * returns a handle exactly when some poll saw one before any poll saw the claim gone.
   */
  method WaitForBrokerHandle(looks: seq<Order>) returns (handle: Option<string>, polls: nat)
    ensures polls <= |looks|
    ensures forall k :: 0 <= k < polls - 1 ==> !EndsWait(looks[k])
    ensures handle.Some? ==> polls > 0 && handle == HandleOf(looks[polls - 1]) && Usable(handle)
    ensures handle.None? ==>
              forall k :: 0 <= k < |looks| && Usable(HandleOf(looks[k])) ==> exists j :: 0 <= j < k && !looks[j].status.CancelSubmitting?
    ensures handle.None? ==> polls == |looks| || (polls > 0 && !looks[polls - 1].status.CancelSubmitting?)
  {
    polls := 0;
    while polls < |looks|
      invariant polls <= |looks|
      invariant forall k :: 0 <= k < polls ==> !EndsWait(looks[k])
    {
      var current := looks[polls];
      polls := polls + 1;
      if Usable(HandleOf(current)) {
        return HandleOf(current), polls;
      }
      if !current.status.CancelSubmitting? {
        return None, polls;
      }
    }
    handle := None;
  }
}
