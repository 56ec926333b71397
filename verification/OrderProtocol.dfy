/**
 * The order lifecycle as a transition system: the back end, any number of place and cancel workers,
 * and the tracker's fills interleave freely over the shared order rows. Every database statement and
 * every vendor answer is one step; locks are not relied on, so the results hold with or without them.
 */
module OrderProtocol {
  import opened Wrappers
  import opened ScaledDecimal
  import opened PositionBook
  import opened Orders

  // ---------------------------------------------------------------- row writes

  /** The handle a worker reads from a row; the empty string reads as no handle. */
  function HandleOf(o: Order): Option<string> { OrElse(o.externalOrderId, o.brokerOrderId) }

  predicate Usable(handle: Option<string>) { handle.Some? && handle.value != "" }

  /** A compare-and-set on the status: the write happens only from the expected status. */
  function MoveStatus(o: Order, expected: OrderStatus, next: OrderStatus): Order {
    if o.status == expected then o.(status := next) else o
  }

  function Accept(o: Order, handle: string): Order {
    o.(status := Accepted, brokerOrderId := Some(handle), externalOrderId := Some(handle))
  }

  /** Attaches a late handle, in the claim states only, and only when the row has none yet. */
  function AttachHandle(o: Order, handle: string): Order {
    if (o.status.Submitting? || o.status.CancelRequested? || o.status.CancelSubmitting?)
       && Trim(handle) != "" && o.brokerOrderId.None? && o.externalOrderId.None?
    then o.(brokerOrderId := Some(handle), externalOrderId := Some(handle))
    else o
  }

  /** The tracker's write for one execution of this order; an execution that applies nothing writes nothing. */
  function FillOrder(o: Order, p: Payload): Order {
    if o.orderType != p.side then o
    else
      var built := BuildFillAggregate(o, p);
      if built.Some? && built.value.appliedQty > 0 then built.value.order else o
  }

  // ---------------------------------------------------------------- the system

  /** The control state of a worker that claimed an order; a cancel worker without a handle carries its last look at the row. */
  datatype Task =
    | PlaceClaimed(oid: int)
    | PlaceCalling(oid: int)
    | PlaceAcked(oid: int, handle: string)
    | PlaceAttaching(oid: int, handle: string)
    | PlacePublishing(oid: int)
    | PlaceFailing(oid: int, rejected: bool)
    | PlaceDone(oid: int)
    | CancelPolling(oid: int, seenAt: nat, seen: Option<string>)
    | CancelUnplaced(oid: int, seenAt: nat, seen: Option<string>)
    | CancelReady(oid: int, handle: string)
    | CancelCalling(oid: int, handle: string)
    | CancelAcked(oid: int)
    | CancelFailing(oid: int)
    | CancelDone(oid: int)

  predicate IsPlace(t: Task) {
    t.PlaceClaimed? || t.PlaceCalling? || t.PlaceAcked? || t.PlaceAttaching? || t.PlacePublishing?
    || t.PlaceFailing? || t.PlaceDone?
  }

  /** What came of a place call: the broker took the order, refused it, or the answer was lost on the way. */
  datatype Answer = Placed | Refused | Lost

  /** `answers` holds the answer to the one call for an order. `ackWritten` records when a place worker first wrote the handle of its acknowledgement, or tried to. */
  datatype World = World(
    rows: map<int, Order>,
    tasks: seq<Task>,
    placeCalls: multiset<int>,
    cancelCalls: multiset<int>,
    answers: map<int, Answer>,
    ackWritten: map<int, nat>,
    clock: nat)

  datatype WorkEvent =
    | Call | GiveUp
    | VendorAck(handle: string) | VendorError(rejected: bool)
    | Write | WriteThrows
    | Poll | Deadline

  datatype Step =
    | InsertOrder(oid: int, order: Order)
    | BackendRequest(oid: int)
    | BackendCancel(oid: int)
    | ClaimPlace(oid: int)
    | ClaimCancel(oid: int)
    | FillArrives(oid: int, payload: Payload)
    | Work(t: nat, event: WorkEvent)

  /** What a worker's next action does: its new control state and the new row. */
  datatype Effect = Effect(task: Task, row: Order)

  function WorkPlace(task: Task, o: Order, e: WorkEvent): Option<Effect> {
    match (task, e)
    case (PlaceClaimed(oid), Call) => Some(Effect(PlaceCalling(oid), o))
    case (PlaceClaimed(oid), GiveUp) => Some(Effect(PlaceFailing(oid, false), o))
    case (PlaceCalling(oid), VendorAck(handle)) => Some(Effect(PlaceAcked(oid, handle), o))
    case (PlaceCalling(oid), VendorError(rejected)) => Some(Effect(PlaceFailing(oid, rejected), o))
    case (PlaceAcked(oid, handle), Write) =>
      if o.status.Submitting? then Some(Effect(PlacePublishing(oid), Accept(o, handle)))
      else Some(Effect(PlaceAttaching(oid, handle), o))
    case (PlaceAcked(oid, _), WriteThrows) => Some(Effect(PlaceFailing(oid, false), o))
    case (PlaceAttaching(oid, handle), Write) => Some(Effect(PlaceDone(oid), AttachHandle(o, handle)))
    case (PlaceAttaching(oid, _), WriteThrows) => Some(Effect(PlaceFailing(oid, false), o))
    case (PlacePublishing(oid), Write) => Some(Effect(PlaceDone(oid), o))
    case (PlacePublishing(oid), WriteThrows) => Some(Effect(PlaceFailing(oid, false), o))
    case (PlaceFailing(oid, rejected), Write) =>
      Some(Effect(PlaceDone(oid), MoveStatus(o, Submitting, if rejected then Rejected else Failed)))
    case (PlaceFailing(oid, _), WriteThrows) => Some(Effect(PlaceFailing(oid, false), o))
    case _ => None
  }

  function WorkCancel(task: Task, o: Order, e: WorkEvent, clock: nat): Option<Effect> {
    match (task, e)
    case (CancelPolling(oid, _, _), Poll) =>
      if Usable(HandleOf(o)) then Some(Effect(CancelReady(oid, HandleOf(o).value), o))
      else if !o.status.CancelSubmitting? then Some(Effect(CancelUnplaced(oid, clock, HandleOf(o)), o))
      else Some(Effect(CancelPolling(oid, clock, HandleOf(o)), o))
    case (CancelPolling(oid, seenAt, seen), Deadline) => Some(Effect(CancelUnplaced(oid, seenAt, seen), o))
    case (CancelUnplaced(oid, _, _), Write) => Some(Effect(CancelDone(oid), MoveStatus(o, CancelSubmitting, Cancelled)))
    case (CancelUnplaced(oid, _, _), WriteThrows) => Some(Effect(CancelDone(oid), o))
    case (CancelReady(oid, handle), Call) => Some(Effect(CancelCalling(oid, handle), o))
    case (CancelReady(oid, _), GiveUp) => Some(Effect(CancelFailing(oid), o))
    case (CancelCalling(oid, _), VendorAck(_)) => Some(Effect(CancelAcked(oid), o))
    case (CancelCalling(oid, _), VendorError(_)) => Some(Effect(CancelFailing(oid), o))
    case (CancelAcked(oid), Write) => Some(Effect(CancelDone(oid), MoveStatus(o, CancelSubmitting, Cancelled)))
    case (CancelAcked(oid), WriteThrows) => Some(Effect(CancelFailing(oid), o))
    case (CancelFailing(oid), Write) => Some(Effect(CancelDone(oid), MoveStatus(o, CancelSubmitting, Failed)))
    case (CancelFailing(oid), WriteThrows) => Some(Effect(CancelFailing(oid), o))
    case _ => None
  }

  function WorkOn(w: World, t: nat, e: WorkEvent): Option<Effect>
    requires t < |w.tasks| && w.tasks[t].oid in w.rows
  {
    var o := w.rows[w.tasks[t].oid];
    if IsPlace(w.tasks[t]) then WorkPlace(w.tasks[t], o, e) else WorkCancel(w.tasks[t], o, e, w.clock)
  }

  /** A new order: not filled, no handle, and not yet past the request. */
  predicate NewOrder(o: Order) {
    && ZeroFilled(o) && HandleOf(o).None?
    && (o.status.Created? || o.status.Requested? || (Terminal(o.status) && !o.status.Filled?))
  }

  predicate Enabled(w: World, s: Step) {
    match s
    case InsertOrder(oid, o) => oid !in w.rows && NewOrder(o)
    case BackendRequest(oid) => oid in w.rows && w.rows[oid].status.Created?
    case BackendCancel(oid) => oid in w.rows && !Terminal(w.rows[oid].status)
    case ClaimPlace(oid) => oid in w.rows && w.rows[oid].status.Requested?
    case ClaimCancel(oid) => oid in w.rows && w.rows[oid].status.CancelRequested?
    case FillArrives(oid, _) => oid in w.rows
    case Work(t, e) => t < |w.tasks| && w.tasks[t].oid in w.rows && WorkOn(w, t, e).Some?
  }

  function ClaimedCancel(oid: int, o: Order, clock: nat): Task {
    if Usable(HandleOf(o)) then CancelReady(oid, HandleOf(o).value)
    else if HandleOf(o).Some? then CancelUnplaced(oid, clock, HandleOf(o))
    else CancelPolling(oid, clock, None)
  }

  /** The worker writes its acknowledgement's handle: the row takes it, or cannot. A blank handle is not attached late. */
  predicate WritesAck(task: Task, e: WorkEvent, o: Order) {
    && e.Write?
    && ((task.PlaceAcked? && o.status.Submitting?) || (task.PlaceAttaching? && Trim(task.handle) != ""))
  }

  function Answered(answers: map<int, Answer>, task: Task, e: WorkEvent): map<int, Answer> {
    if !task.PlaceCalling? || task.oid in answers then answers
    else if e.VendorAck? then answers[task.oid := Placed]
    else if e.VendorError? then answers[task.oid := if e.rejected then Refused else Lost]
    else answers
  }

  function Count(calls: multiset<int>, oid: int, called: bool): multiset<int> {
    if called then calls + multiset{oid} else calls
  }

  function Next(w: World, s: Step): World {
    if !Enabled(w, s) then w.(clock := w.clock + 1)
    else
      match s
      case InsertOrder(oid, o) => w.(rows := w.rows[oid := o], clock := w.clock + 1)
      case BackendRequest(oid) => w.(rows := w.rows[oid := w.rows[oid].(status := Requested)], clock := w.clock + 1)
      case BackendCancel(oid) => w.(rows := w.rows[oid := w.rows[oid].(status := CancelRequested)], clock := w.clock + 1)
      case ClaimPlace(oid) =>
        w.(rows := w.rows[oid := w.rows[oid].(status := Submitting)],
           tasks := w.tasks + [PlaceClaimed(oid)], clock := w.clock + 1)
      case ClaimCancel(oid) =>
        w.(rows := w.rows[oid := w.rows[oid].(status := CancelSubmitting)],
           tasks := w.tasks + [ClaimedCancel(oid, w.rows[oid], w.clock)], clock := w.clock + 1)
      case FillArrives(oid, p) => w.(rows := w.rows[oid := FillOrder(w.rows[oid], p)], clock := w.clock + 1)
      case Work(t, e) =>
        var task := w.tasks[t];
        var effect := WorkOn(w, t, e).value;
        World(
          w.rows[task.oid := effect.row],
          w.tasks[t := effect.task],
          Count(w.placeCalls, task.oid, task.PlaceClaimed? && e.Call?),
          Count(w.cancelCalls, task.oid, task.CancelReady? && e.Call?),
          Answered(w.answers, task, e),
          if WritesAck(task, e, w.rows[task.oid]) && task.oid !in w.ackWritten
          then w.ackWritten[task.oid := w.clock] else w.ackWritten,
          w.clock + 1)
  }

  function Run(w: World, steps: seq<Step>): World
    decreases |steps|
  {
    if |steps| == 0 then w else Run(Next(w, steps[0]), steps[1..])
  }

  const START := World(map[], [], multiset{}, multiset{}, map[], map[], 0)

  // ---------------------------------------------------------------- rows

  predicate Fresh(s: OrderStatus) { s.Created? || s.Requested? }

  ghost predicate RowOk(o: Order) {
    && 0 <= o.filledQuantity <= Max(0, o.quantity)
    && (o.status.Filled? ==> o.filledQuantity == o.quantity > 0)
    && (o.filledQuantity == o.quantity > 0 ==> Terminal(o.status))
    && (o.status.Accepted? || o.status.PartiallyFilled? || o.status.Filled? ==> HandleOf(o).Some?)
  }

  /** What any step may do to a row: terminal states absorb, claims never reopen, handles never vanish. */
  ghost predicate RowStep(before: Order, after: Order) {
    && (Terminal(before.status) ==> after.status == before.status)
    && (!Fresh(before.status) ==> !Fresh(after.status))
    && (HandleOf(before).Some? ==> HandleOf(after).Some?)
    && before.filledQuantity <= after.filledQuantity
    && after.quantity == before.quantity
  }

  lemma FillRowStep(o: Order, p: Payload)
    requires RowOk(o)
    ensures RowOk(FillOrder(o, p)) && RowStep(o, FillOrder(o, p))
  {
    hide AmountOf, AverageOf, PreviousAmount, FillAnomaly;
  }

  /**
   * An execution of the order's side moves it exactly when it is well formed and the order has room. Then
   * the filled quantity grows by what fits, the order becomes filled if and only if that completes it
   * and it had not been closed otherwise, and an unfinished cancel keeps its state.
   */
  lemma FillEffect(o: Order, p: Payload)
    requires 0 <= o.filledQuantity <= Max(0, o.quantity)
    ensures var next := FillOrder(o, p);
            if o.orderType == p.side && p.filledQty > 0 && p.filledPrice >= 0 && o.filledQuantity < o.quantity then
              FilledBy(o, next, p)
            else next == o
  {
    hide BuildFillAggregate, FilledBy;
    AppliedFill(o, p);
  }

  lemma PlaceRowStep(task: Task, o: Order, e: WorkEvent)
    requires RowOk(o) && WorkPlace(task, o, e).Some?
    ensures RowOk(WorkPlace(task, o, e).value.row) && RowStep(o, WorkPlace(task, o, e).value.row)
    ensures IsPlace(WorkPlace(task, o, e).value.task) && WorkPlace(task, o, e).value.task.oid == task.oid
    ensures !WorkPlace(task, o, e).value.task.PlaceClaimed?
    ensures InFlight(WorkPlace(task, o, e).value.task) ==> InFlight(task) || (task.PlaceClaimed? && e.Call?)
    ensures WritesAck(task, e, o) && !Fresh(o.status) ==>
              var after := WorkPlace(task, o, e).value.row; Terminal(after.status) || HandleOf(after).Some?
  {
    hide Trim;
  }

  lemma CancelRowStep(task: Task, o: Order, e: WorkEvent, clock: nat)
    requires RowOk(o) && WorkCancel(task, o, e, clock).Some?
    ensures RowOk(WorkCancel(task, o, e, clock).value.row) && RowStep(o, WorkCancel(task, o, e, clock).value.row)
    ensures !IsPlace(WorkCancel(task, o, e, clock).value.task) && WorkCancel(task, o, e, clock).value.task.oid == task.oid
  {
  }

  lemma WorkRowStep(w: World, t: nat, e: WorkEvent)
    requires t < |w.tasks| && w.tasks[t].oid in w.rows && RowOk(w.rows[w.tasks[t].oid]) && WorkOn(w, t, e).Some?
    ensures var effect := WorkOn(w, t, e).value;
            var o := w.rows[w.tasks[t].oid];
            && RowOk(effect.row) && RowStep(o, effect.row)
            && effect.task.oid == w.tasks[t].oid && IsPlace(effect.task) == IsPlace(w.tasks[t])
            && !effect.task.PlaceClaimed?
            && (InFlight(effect.task) ==> InFlight(w.tasks[t]) || (w.tasks[t].PlaceClaimed? && e.Call?))
            && (WritesAck(w.tasks[t], e, o) && !Fresh(o.status) ==> Terminal(effect.row.status) || HandleOf(effect.row).Some?)
  {
    hide WorkPlace, WorkCancel, WritesAck, RowOk, RowStep;
    if IsPlace(w.tasks[t]) {
      PlaceRowStep(w.tasks[t], w.rows[w.tasks[t].oid], e);
    } else {
      CancelRowStep(w.tasks[t], w.rows[w.tasks[t].oid], e, w.clock);
      NoAckFromCancel(w.tasks[t], e, w.rows[w.tasks[t].oid]);
    }
  }

  lemma NoAckFromCancel(task: Task, e: WorkEvent, o: Order)
    requires !IsPlace(task)
    ensures !WritesAck(task, e, o)
  {
  }

  ghost predicate RowsOk(rows: map<int, Order>) { forall oid :: oid in rows ==> RowOk(rows[oid]) }

  ghost predicate RowsStep(before: map<int, Order>, after: map<int, Order>) {
    forall oid :: oid in before ==> oid in after && RowStep(before[oid], after[oid])
  }

  /** The rows change at one order, by an allowed step. */
  lemma OneRow(rows: map<int, Order>, oid: int, after: Order)
    requires RowsOk(rows) && RowOk(after) && (oid in rows ==> RowStep(rows[oid], after))
    ensures RowsOk(rows[oid := after]) && RowsStep(rows, rows[oid := after])
  {
    hide RowOk;
  }

  lemma StatusRowStep(o: Order, next: OrderStatus)
    requires RowOk(o) && !Terminal(o.status) && (next.Requested? ==> o.status.Created?)
    requires next.Requested? || next.CancelRequested? || next.Submitting? || next.CancelSubmitting?
    ensures RowOk(o.(status := next)) && RowStep(o, o.(status := next))
  {
  }

  lemma BackendRowStep(w: World, s: Step)
    requires RowsOk(w.rows) && !s.Work? && Enabled(w, s)
    ensures RowsOk(Next(w, s).rows) && RowsStep(w.rows, Next(w, s).rows)
  {
    hide Trim, FillOrder, RowsOk, RowsStep, RowStep, RowOk, ClaimedCancel, NewOrder;
    RowAt(w.rows, s.oid);
    match s
    case InsertOrder(oid, o) =>
      NewOrderOk(o);
      OneRow(w.rows, oid, o);
    case BackendRequest(oid) =>
      StatusRowStep(w.rows[oid], Requested);
      OneRow(w.rows, oid, w.rows[oid].(status := Requested));
    case BackendCancel(oid) =>
      StatusRowStep(w.rows[oid], CancelRequested);
      OneRow(w.rows, oid, w.rows[oid].(status := CancelRequested));
    case ClaimPlace(oid) =>
      StatusRowStep(w.rows[oid], Submitting);
      OneRow(w.rows, oid, w.rows[oid].(status := Submitting));
    case ClaimCancel(oid) =>
      StatusRowStep(w.rows[oid], CancelSubmitting);
      OneRow(w.rows, oid, w.rows[oid].(status := CancelSubmitting));
    case FillArrives(oid, p) =>
      FillRowStep(w.rows[oid], p);
      OneRow(w.rows, oid, FillOrder(w.rows[oid], p));
  }

  lemma RowAt(rows: map<int, Order>, oid: int)
    requires RowsOk(rows)
    ensures oid in rows ==> RowOk(rows[oid])
  {
  }

  lemma NewOrderOk(o: Order)
    requires NewOrder(o)
    ensures RowOk(o)
  {
  }

  lemma NextRows(w: World, s: Step)
    requires RowsOk(w.rows)
    ensures RowsOk(Next(w, s).rows) && RowsStep(w.rows, Next(w, s).rows)
  {
    hide WorkOn, FillOrder, RowOk, RowStep;
    RowStepReflexive(w.rows);
    if Enabled(w, s) {
      if s.Work? {
        WorkRowStep(w, s.t, s.event);
      } else {
        BackendRowStep(w, s);
      }
    }
  }

  lemma RowStepReflexive(rows: map<int, Order>)
    ensures RowsStep(rows, rows)
  {
  }

  /**
   * Filled, cancelled, rejected, failed and expired are absorbing in every interleaving, and no order
   * loses its handle or its filled quantity.
   */
  lemma {:induction false} TerminalAbsorbs(w: World, steps: seq<Step>, oid: int)
    requires RowsOk(w.rows) && oid in w.rows
    ensures RowsOk(Run(w, steps).rows) && oid in Run(w, steps).rows
    ensures RowStep(w.rows[oid], Run(w, steps).rows[oid])
    ensures Terminal(w.rows[oid].status) ==> Run(w, steps).rows[oid].status == w.rows[oid].status
    decreases |steps|
  {
    hide Next, RowOk;
    if |steps| == 0 {
      RowStepReflexive(w.rows);
    } else {
      NextRows(w, steps[0]);
      TerminalAbsorbs(Next(w, steps[0]), steps[1..], oid);
    }
  }

  // ---------------------------------------------------------------- workers

  ghost predicate HasPlace(tasks: seq<Task>, oid: int) {
    exists t :: 0 <= t < |tasks| && IsPlace(tasks[t]) && tasks[t].oid == oid
  }

  /** The worker has called the broker and has yet to deal with the answer. */
  predicate InFlight(t: Task) { t.PlaceCalling? || t.PlaceAcked? || t.PlaceAttaching? || t.PlacePublishing? }

  /** One place worker per order, ever; an order not yet claimed has none; only a claimed one has called. */
  ghost predicate PlaceOk(w: World) {
    && (forall t :: 0 <= t < |w.tasks| ==> w.tasks[t].oid in w.rows)
    && (forall s, t :: 0 <= s < t < |w.tasks| && IsPlace(w.tasks[s]) && IsPlace(w.tasks[t]) ==> w.tasks[s].oid != w.tasks[t].oid)
    && (forall t :: 0 <= t < |w.tasks| && IsPlace(w.tasks[t]) ==> !Fresh(w.rows[w.tasks[t].oid].status))
    && (forall t :: 0 <= t < |w.tasks| && w.tasks[t].PlaceClaimed? ==> w.placeCalls[w.tasks[t].oid] == 0)
    && (forall t :: 0 <= t < |w.tasks| && InFlight(w.tasks[t]) ==> w.placeCalls[w.tasks[t].oid] > 0)
    && (forall oid :: w.placeCalls[oid] <= 1)
    && (forall oid :: w.placeCalls[oid] > 0 ==> HasPlace(w.tasks, oid))
  }

  lemma HasPlaceUpdate(tasks: seq<Task>, t: nat, task: Task, oid: int)
    requires t < |tasks| && task.oid == tasks[t].oid && IsPlace(task) == IsPlace(tasks[t])
    ensures HasPlace(tasks[t := task], oid) <==> HasPlace(tasks, oid)
  {
    var next := tasks[t := task];
    if HasPlace(tasks, oid) {
      var i :| 0 <= i < |tasks| && IsPlace(tasks[i]) && tasks[i].oid == oid;
      assert IsPlace(next[i]) && next[i].oid == oid;
    }
    if HasPlace(next, oid) {
      var i :| 0 <= i < |next| && IsPlace(next[i]) && next[i].oid == oid;
      assert IsPlace(tasks[i]) && tasks[i].oid == oid;
    }
  }

  lemma HasPlaceAppend(tasks: seq<Task>, task: Task, oid: int)
    ensures HasPlace(tasks + [task], oid) <==> HasPlace(tasks, oid) || (IsPlace(task) && task.oid == oid)
  {
    var next := tasks + [task];
    assert next[|tasks|] == task;
    if HasPlace(tasks, oid) {
      var i :| 0 <= i < |tasks| && IsPlace(tasks[i]) && tasks[i].oid == oid;
      assert next[i] == tasks[i];
    }
  }

  lemma UnclaimedHasNone(w: World, oid: int)
    requires PlaceOk(w) && oid in w.rows && Fresh(w.rows[oid].status)
    ensures !HasPlace(w.tasks, oid)
  {
  }

  lemma ClaimPlaceOk(w: World, oid: int)
    requires PlaceOk(w) && Enabled(w, ClaimPlace(oid))
    ensures PlaceOk(Next(w, ClaimPlace(oid)))
  {
    hide HasPlace;
    var next := Next(w, ClaimPlace(oid));
    UnclaimedHasNone(w, oid);
    forall o | true ensures w.placeCalls[o] > 0 ==> HasPlace(next.tasks, o) {
      HasPlaceAppend(w.tasks, PlaceClaimed(oid), o);
    }
  }

  lemma ClaimedIsCancel(oid: int, o: Order, clock: nat)
    ensures !IsPlace(ClaimedCancel(oid, o, clock)) && ClaimedCancel(oid, o, clock).oid == oid
  {
  }

  lemma ClaimCancelOk(w: World, oid: int)
    requires PlaceOk(w) && Enabled(w, ClaimCancel(oid))
    ensures PlaceOk(Next(w, ClaimCancel(oid)))
  {
    hide HandleOf, ClaimedCancel, HasPlace;
    var next := Next(w, ClaimCancel(oid));
    var task := ClaimedCancel(oid, w.rows[oid], w.clock);
    ClaimedIsCancel(oid, w.rows[oid], w.clock);
    forall o | true ensures w.placeCalls[o] > 0 ==> HasPlace(next.tasks, o) {
      HasPlaceAppend(w.tasks, task, o);
    }
  }

  lemma WorkPlaceOk(w: World, t: nat, e: WorkEvent)
    requires PlaceOk(w) && RowsOk(w.rows) && Enabled(w, Work(t, e))
    ensures PlaceOk(Next(w, Work(t, e)))
  {
    hide WorkOn, RowOk, WritesAck, HasPlace;
    var task := w.tasks[t];
    var effect := WorkOn(w, t, e).value;
    WorkRowStep(w, t, e);
    var next := Next(w, Work(t, e));
    forall oid | true ensures HasPlace(next.tasks, oid) <==> HasPlace(w.tasks, oid) {
      HasPlaceUpdate(w.tasks, t, effect.task, oid);
    }
    if task.PlaceClaimed? {
      PlaceHere(w.tasks, t);
    }
  }

  lemma PlaceHere(tasks: seq<Task>, t: nat)
    requires t < |tasks| && IsPlace(tasks[t])
    ensures HasPlace(tasks, tasks[t].oid)
  {
  }

  lemma NextPlaceOk(w: World, s: Step)
    requires PlaceOk(w) && RowsOk(w.rows)
    ensures PlaceOk(Next(w, s))
  {
    hide HasPlace, FillOrder, WorkOn, RowOk;
    NextRows(w, s);
    if Enabled(w, s) {
      match s
      case ClaimPlace(oid) => ClaimPlaceOk(w, oid);
      case ClaimCancel(oid) => ClaimCancelOk(w, oid);
      case Work(t, e) => WorkPlaceOk(w, t, e);
      case _ =>
    }
  }

  // ---------------------------------------------------------------- the race between placing and cancelling

  /** A written acknowledgement is visible on the row from then on, unless the row is already closed. */
  ghost predicate AcksOk(w: World) {
    forall oid :: oid in w.ackWritten ==>
      && oid in w.rows && w.ackWritten[oid] < w.clock
      && (Terminal(w.rows[oid].status) || HandleOf(w.rows[oid]).Some?)
  }

  /** A cancel worker that last saw no handle looked before the acknowledgement was written, or the row is closed. */
  ghost predicate LookOk(w: World, task: Task) {
    && (task.CancelPolling? || task.CancelUnplaced? ==> task.seenAt <= w.clock)
    && (task.CancelPolling? || task.CancelUnplaced? ==>
          (task.seen.None? && task.oid in w.ackWritten && w.ackWritten[task.oid] < task.seenAt ==>
             task.oid in w.rows && Terminal(w.rows[task.oid].status)))
  }

  ghost predicate LooksOk(w: World) { forall t :: 0 <= t < |w.tasks| ==> LookOk(w, w.tasks[t]) }

  lemma WorkAcksOk(w: World, t: nat, e: WorkEvent)
    requires AcksOk(w) && PlaceOk(w) && RowsOk(w.rows) && Enabled(w, Work(t, e))
    ensures AcksOk(Next(w, Work(t, e)))
  {
    hide WorkOn, RowOk, HasPlace, WritesAck;
    WorkRowStep(w, t, e);
    if !IsPlace(w.tasks[t]) {
      NoAckFromCancel(w.tasks[t], e, w.rows[w.tasks[t].oid]);
    }
  }

  lemma NextAcksOk(w: World, s: Step)
    requires AcksOk(w) && PlaceOk(w) && RowsOk(w.rows)
    ensures AcksOk(Next(w, s))
  {
    hide WorkOn, RowOk, PlaceOk, FillOrder, WritesAck;
    NextRows(w, s);
    if Enabled(w, s) && s.Work? {
      WorkAcksOk(w, s.t, s.event);
    }
  }

  /** The look a cancel worker takes now: no handle means no acknowledgement was written, or the row is closed. */
  lemma LookNow(w: World, oid: int, task: Task)
    requires AcksOk(w) && oid in w.rows && task.oid == oid
    requires task.CancelPolling? || task.CancelUnplaced? ==> task.seenAt == w.clock && task.seen == HandleOf(w.rows[oid])
    ensures LookOk(w, task)
  {
  }

  lemma WorkLook(w: World, t: nat, e: WorkEvent)
    requires AcksOk(w) && t < |w.tasks| && w.tasks[t].oid in w.rows && LookOk(w, w.tasks[t]) && WorkOn(w, t, e).Some?
    ensures LookOk(w, WorkOn(w, t, e).value.task)
  {
    hide Trim;
    var task := WorkOn(w, t, e).value.task;
    if w.tasks[t].CancelPolling? && e.Poll? {
      LookNow(w, w.tasks[t].oid, task);
    }
  }

  /** Later steps keep a look true: terminal rows stay terminal, and acknowledgements written later are later. */
  lemma LookKept(w: World, next: World, task: Task)
    requires LookOk(w, task) && RowsStep(w.rows, next.rows) && w.clock <= next.clock
    requires forall oid :: oid in next.ackWritten ==>
               next.ackWritten[oid] >= w.clock || (oid in w.ackWritten && next.ackWritten[oid] == w.ackWritten[oid])
    ensures LookOk(next, task)
  {
    hide HandleOf;
  }

  lemma AckTimes(w: World, s: Step)
    ensures forall oid :: oid in Next(w, s).ackWritten ==>
              Next(w, s).ackWritten[oid] >= w.clock || (oid in w.ackWritten && Next(w, s).ackWritten[oid] == w.ackWritten[oid])
    ensures Next(w, s).clock == w.clock + 1
  {
    hide WorkOn, FillOrder, WritesAck;
  }

  lemma NextLooksOk(w: World, s: Step)
    requires AcksOk(w) && LooksOk(w) && PlaceOk(w) && RowsOk(w.rows)
    ensures LooksOk(Next(w, s))
  {
    hide LookOk, RowOk, WorkOn, FillOrder, RowStep, WritesAck, HasPlace;
    var next := Next(w, s);
    NextRows(w, s);
    AckTimes(w, s);
    forall t | 0 <= t < |next.tasks| ensures LookOk(next, next.tasks[t]) {
      if Enabled(w, s) && s.Work? && t == s.t {
        WorkLook(w, t, s.event);
      } else if t < |w.tasks| {
        assert next.tasks[t] == w.tasks[t];
      } else {
        NewTaskLook(w, s);
      }
      LookKept(w, next, next.tasks[t]);
    }
  }

  lemma NewTaskLook(w: World, s: Step)
    requires AcksOk(w) && Enabled(w, s) && (s.ClaimPlace? || s.ClaimCancel?)
    ensures |Next(w, s).tasks| == |w.tasks| + 1 && LookOk(w, Next(w, s).tasks[|w.tasks|])
  {
    if s.ClaimCancel? {
      LookNow(w, s.oid, ClaimedCancel(s.oid, w.rows[s.oid], w.clock));
    }
  }

  // ---------------------------------------------------------------- every reachable state

  ghost predicate Inv(w: World) { RowsOk(w.rows) && PlaceOk(w) && AcksOk(w) && LooksOk(w) }

  lemma {:induction false} RunKeepsInv(w: World, steps: seq<Step>)
    requires Inv(w)
    ensures Inv(Run(w, steps))
    decreases |steps|
  {
    hide RowsOk, PlaceOk, AcksOk, LooksOk, Next;
    if |steps| > 0 {
      NextRows(w, steps[0]);
      NextPlaceOk(w, steps[0]);
      NextAcksOk(w, steps[0]);
      NextLooksOk(w, steps[0]);
      RunKeepsInv(Next(w, steps[0]), steps[1..]);
    }
  }

  lemma Reachable(steps: seq<Step>)
    ensures Inv(Run(START, steps))
  {
    hide Run, Next;
    RunKeepsInv(START, steps);
  }

  /** In every run the broker is asked to place an order at most once, and only after the order was claimed. */
  lemma PlacedAtMostOnce(steps: seq<Step>, oid: int)
    ensures var w := Run(START, steps);
            && w.placeCalls[oid] <= 1
            && (w.placeCalls[oid] == 1 ==> oid in w.rows && !Fresh(w.rows[oid].status))
  {
    hide Run, Next;
    RunKeepsInv(START, steps);
  }

  /**
   * In every reachable state an order is filled exactly when all of its quantity is filled and it was
   * not closed otherwise; in particular no order that is filled in full is still open.
   */
  lemma FilledInFull(steps: seq<Step>, oid: int)
    ensures var w := Run(START, steps);
            oid in w.rows ==>
              var o := w.rows[oid];
              && 0 <= o.filledQuantity <= Max(0, o.quantity)
              && (o.status.Filled? <==> o.filledQuantity == o.quantity > 0 && !ClosedUnfilled(o.status))
              && (o.filledQuantity == o.quantity > 0 ==> Terminal(o.status))
  {
    hide Run, Next;
    RunKeepsInv(START, steps);
  }

  /**
   * The place/cancel race. When a cancel worker whose last look found no handle can still close the
   * order as cancelled without calling the broker, no acknowledgement had been written by that look.
   */
  lemma UnplacedCloseSawNoAck(steps: seq<Step>, t: nat)
    ensures var w := Run(START, steps);
            t < |w.tasks| && w.tasks[t].CancelUnplaced? && w.tasks[t].seen.None?
            && w.tasks[t].oid in w.rows && w.rows[w.tasks[t].oid].status.CancelSubmitting? ==>
              w.tasks[t].oid !in w.ackWritten || w.ackWritten[w.tasks[t].oid] >= w.tasks[t].seenAt
  {
    hide Run, Next;
    RunKeepsInv(START, steps);
    var w := Run(START, steps);
    if t < |w.tasks| {
      assert LookOk(w, w.tasks[t]);
    }
  }

  /** An acknowledgement that finds its row in a cancel state leaves the status alone and the row with a handle. */
  lemma LateAckAttaches(o: Order, oid: int, handle: string)
    requires Trim(handle) != "" && (o.status.CancelRequested? || o.status.CancelSubmitting?)
    ensures WorkPlace(PlaceAcked(oid, handle), o, Write) == Some(Effect(PlaceAttaching(oid, handle), o))
    ensures var after := WorkPlace(PlaceAttaching(oid, handle), o, Write).value.row;
            && after.status == o.status
            && HandleOf(after).Some?
            && (HandleOf(o).None? ==> after.brokerOrderId == Some(handle) && after.externalOrderId == Some(handle))
            && (HandleOf(o).Some? ==> after == o)
  {
    hide Trim;
  }

  // ---------------------------------------------------------------- the blank handle

  /** The execution stream never delivers an execution without the vendor's order number. */
  predicate Named(s: Step) { s.FillArrives? ==> s.payload.vendorOrderId != "" }

  predicate NamedFills(steps: seq<Step>) { forall i :: 0 <= i < |steps| ==> Named(steps[i]) }

  /** What a cancel worker last saw is never a usable handle, and a blank one was an acknowledgement's, written before the look. */
  ghost predicate BlankLook(w: World, task: Task) {
    task.CancelPolling? || task.CancelUnplaced? ==>
      && !Usable(task.seen)
      && (task.seen.Some? ==> task.oid in w.ackWritten && w.ackWritten[task.oid] < task.seenAt)
  }

  ghost predicate BlanksOk(w: World) {
    && (forall oid :: oid in w.rows && HandleOf(w.rows[oid]) == Some("") ==> oid in w.ackWritten)
    && (forall oid :: oid in w.ackWritten ==> w.ackWritten[oid] < w.clock)
    && (forall t :: 0 <= t < |w.tasks| ==> BlankLook(w, w.tasks[t]))
  }

  lemma FillBlank(o: Order, p: Payload)
    requires p.vendorOrderId != "" && HandleOf(FillOrder(o, p)) == Some("")
    ensures HandleOf(o) == Some("")
  {
    hide AmountOf, AverageOf, PreviousAmount, FillAnomaly, ResolveFillStatus;
  }

  lemma WorkBlank(w: World, t: nat, e: WorkEvent)
    requires t < |w.tasks| && w.tasks[t].oid in w.rows && WorkOn(w, t, e).Some?
    requires HandleOf(WorkOn(w, t, e).value.row) == Some("")
    ensures HandleOf(w.rows[w.tasks[t].oid]) == Some("") || WritesAck(w.tasks[t], e, w.rows[w.tasks[t].oid])
  {
    assert Trim("") == "";
  }

  lemma NextBlankRows(w: World, s: Step, oid: int)
    requires BlanksOk(w) && Named(s) && oid in Next(w, s).rows && HandleOf(Next(w, s).rows[oid]) == Some("")
    ensures oid in Next(w, s).ackWritten
  {
    hide WorkOn, FillOrder, WritesAck, BlankLook;
    if Enabled(w, s) {
      match s
      case FillArrives(id, p) =>
        if id == oid {
          FillBlank(w.rows[oid], p);
        }
      case Work(t, e) =>
        if w.tasks[t].oid == oid {
          NextRow(w, s);
          WorkBlank(w, t, e);
        }
      case _ =>
    }
  }

  lemma NextRow(w: World, s: Step)
    requires s.Work? && Enabled(w, s)
    ensures Next(w, s).rows[w.tasks[s.t].oid] == WorkOn(w, s.t, s.event).value.row
  {
    hide WorkOn;
  }

  lemma WorkBlankLook(w: World, t: nat, e: WorkEvent)
    requires BlanksOk(w) && t < |w.tasks| && w.tasks[t].oid in w.rows && WorkOn(w, t, e).Some?
    ensures BlankLook(w, WorkOn(w, t, e).value.task)
  {
    hide Trim;
    assert BlankLook(w, w.tasks[t]);
  }

  lemma NewBlankLook(w: World, s: Step)
    requires BlanksOk(w) && Enabled(w, s) && (s.ClaimPlace? || s.ClaimCancel?)
    ensures |Next(w, s).tasks| == |w.tasks| + 1 && BlankLook(w, Next(w, s).tasks[|w.tasks|])
  {
  }

  lemma FirstAckStays(w: World, s: Step, task: Task)
    requires BlankLook(w, task)
    ensures BlankLook(Next(w, s), task)
  {
    hide WorkOn, FillOrder, WritesAck;
  }

  lemma NextBlanksOk(w: World, s: Step)
    requires BlanksOk(w) && Named(s)
    ensures BlanksOk(Next(w, s))
  {
    hide WorkOn, FillOrder, WritesAck, BlankLook, HandleOf;
    var next := Next(w, s);
    forall oid | oid in next.rows && HandleOf(next.rows[oid]) == Some("") ensures oid in next.ackWritten {
      NextBlankRows(w, s, oid);
    }
    forall t | 0 <= t < |next.tasks| ensures BlankLook(next, next.tasks[t]) {
      if Enabled(w, s) && s.Work? && t == s.t {
        WorkBlankLook(w, t, s.event);
      } else if t < |w.tasks| {
        assert next.tasks[t] == w.tasks[t];
      } else {
        NewBlankLook(w, s);
      }
      FirstAckStays(w, s, next.tasks[t]);
    }
  }

  lemma {:induction false} RunKeepsBlanks(w: World, steps: seq<Step>)
    requires BlanksOk(w) && NamedFills(steps)
    ensures BlanksOk(Run(w, steps))
    decreases |steps|
  {
    hide BlanksOk, Next;
    if |steps| > 0 {
      NextBlanksOk(w, steps[0]);
      RunKeepsBlanks(Next(w, steps[0]), steps[1..]);
    }
  }

  /**
   * When a cancel worker can still close its order as cancelled without calling the broker, an
   * acknowledgement had been written by its last look exactly when that look found a blank handle.
   */
  lemma AckedCloseExactlyWhen(steps: seq<Step>, t: nat)
    requires NamedFills(steps)
    ensures var w := Run(START, steps);
            t < |w.tasks| && w.tasks[t].CancelUnplaced?
            && w.tasks[t].oid in w.rows && w.rows[w.tasks[t].oid].status.CancelSubmitting? ==>
              (w.tasks[t].oid in w.ackWritten && w.ackWritten[w.tasks[t].oid] < w.tasks[t].seenAt
               <==> w.tasks[t].seen == Some(""))
  {
    hide Run, Next;
    RunKeepsBlanks(START, steps);
    UnplacedCloseSawNoAck(steps, t);
    var w := Run(START, steps);
    if t < |w.tasks| {
      assert BlankLook(w, w.tasks[t]);
    }
  }

  // ---------------------------------------------------------------- the broker's answers

  /** A worker that claimed or waits has no answer yet, and one that deals with an acknowledgement has been given it. */
  ghost predicate TaskAnswered(answers: map<int, Answer>, task: Task) {
    && (task.PlaceClaimed? || task.PlaceCalling? ==> task.oid !in answers)
    && (task.PlaceAcked? || task.PlaceAttaching? || task.PlacePublishing? ==> task.oid in answers && answers[task.oid] == Placed)
  }

  ghost predicate AnswersOk(w: World) {
    && (forall oid :: oid in w.answers ==> HasPlace(w.tasks, oid))
    && (forall t :: 0 <= t < |w.tasks| ==> TaskAnswered(w.answers, w.tasks[t]))
  }

  lemma WorkAnswers(w: World, t: nat, e: WorkEvent)
    requires Enabled(w, Work(t, e)) && TaskAnswered(w.answers, w.tasks[t])
    ensures TaskAnswered(Answered(w.answers, w.tasks[t], e), WorkOn(w, t, e).value.task)
  {
    hide Trim;
  }

  /** The other workers are cancel workers, or place workers of other orders. */
  lemma OthersAnswered(w: World, t: nat, e: WorkEvent, i: nat)
    requires PlaceOk(w) && t < |w.tasks| && i < |w.tasks| && i != t && TaskAnswered(w.answers, w.tasks[i])
    ensures TaskAnswered(Answered(w.answers, w.tasks[t], e), w.tasks[i])
  {
    hide HasPlace, Fresh;
  }

  lemma NextAnswersOk(w: World, s: Step)
    requires AnswersOk(w) && PlaceOk(w) && RowsOk(w.rows)
    ensures AnswersOk(Next(w, s))
  {
    hide HasPlace, FillOrder, WorkOn, WritesAck, RowOk, RowsOk, ClaimedCancel;
    if Enabled(w, s) {
      match s
      case ClaimPlace(oid) =>
        UnclaimedHasNone(w, oid);
        forall o | o in w.answers ensures HasPlace(w.tasks + [PlaceClaimed(oid)], o) {
          HasPlaceAppend(w.tasks, PlaceClaimed(oid), o);
        }
      case ClaimCancel(oid) =>
        var task := ClaimedCancel(oid, w.rows[oid], w.clock);
        ClaimedIsCancel(oid, w.rows[oid], w.clock);
        forall o | o in w.answers ensures HasPlace(w.tasks + [task], o) {
          HasPlaceAppend(w.tasks, task, o);
        }
      case Work(t, e) => WorkAnswersOk(w, t, e);
      case _ =>
    }
  }

  lemma WorkAnswersOk(w: World, t: nat, e: WorkEvent)
    requires AnswersOk(w) && PlaceOk(w) && RowsOk(w.rows) && Enabled(w, Work(t, e))
    ensures AnswersOk(Next(w, Work(t, e)))
  {
    hide HasPlace, WorkOn, WritesAck, RowOk, RowsOk, RowStep, PlaceOk, TaskAnswered;
    var next := Next(w, Work(t, e));
    var effect := WorkOn(w, t, e).value;
    RowAt(w.rows, w.tasks[t].oid);
    WorkRowStep(w, t, e);
    forall oid | oid in next.answers ensures HasPlace(next.tasks, oid) {
      HasPlaceUpdate(w.tasks, t, effect.task, oid);
      AnsweredHere(w, t, e, oid);
    }
    forall i | 0 <= i < |next.tasks| ensures TaskAnswered(next.answers, next.tasks[i]) {
      if i == t {
        WorkAnswers(w, t, e);
      } else {
        OthersAnswered(w, t, e, i);
      }
    }
  }

  lemma AnsweredHere(w: World, t: nat, e: WorkEvent, oid: int)
    requires AnswersOk(w) && t < |w.tasks| && oid in Answered(w.answers, w.tasks[t], e)
    ensures HasPlace(w.tasks, oid)
  {
    if oid !in w.answers {
      PlaceHere(w.tasks, t);
    }
  }

  lemma {:induction false} RunKeepsAnswers(w: World, steps: seq<Step>)
    requires Inv(w) && AnswersOk(w)
    ensures AnswersOk(Run(w, steps))
    decreases |steps|
  {
    hide RowsOk, PlaceOk, AcksOk, LooksOk, AnswersOk, Next;
    if |steps| > 0 {
      NextRows(w, steps[0]);
      NextPlaceOk(w, steps[0]);
      NextAcksOk(w, steps[0]);
      NextLooksOk(w, steps[0]);
      NextAnswersOk(w, steps[0]);
      RunKeepsAnswers(Next(w, steps[0]), steps[1..]);
    }
  }

  // ---------------------------------------------------------------- what the race leaves open

  /** The broker has been asked to place the order and has not refused it. */
  predicate MayHold(w: World, oid: int) {
    w.placeCalls[oid] > 0 && (oid in w.answers ==> w.answers[oid] != Refused)
  }

  /** The broker may hold the order, or a worker that claimed it may still ask. */
  ghost predicate MayReachBroker(w: World, oid: int) {
    MayHold(w, oid) || exists t :: 0 <= t < |w.tasks| && w.tasks[t] == PlaceClaimed(oid)
  }

  /** In a reachable state that is so whenever the order's place worker waits for an answer or deals with an acknowledgement. */
  lemma InFlightMayReach(steps: seq<Step>, t: nat)
    ensures var w := Run(START, steps);
            t < |w.tasks| && (w.tasks[t].PlaceClaimed? || InFlight(w.tasks[t])) ==> MayReachBroker(w, w.tasks[t].oid)
  {
    hide Run, Next;
    Reachable(steps);
    RunKeepsAnswers(START, steps);
    var w := Run(START, steps);
    if t < |w.tasks| && w.tasks[t].PlaceClaimed? {
      assert w.tasks[t] == PlaceClaimed(w.tasks[t].oid);
    }
  }

  lemma NextUnreached(w: World, s: Step, oid: int)
    requires RowsOk(w.rows) && oid in w.rows && !Fresh(w.rows[oid].status) && !MayReachBroker(w, oid)
    ensures !MayReachBroker(Next(w, s), oid) && Next(w, s).placeCalls[oid] == w.placeCalls[oid]
  {
    hide WorkOn, FillOrder, WritesAck, RowOk, HandleOf;
    if Enabled(w, s) && s.Work? {
      RowAt(w.rows, w.tasks[s.t].oid);
      WorkRowStep(w, s.t, s.event);
    }
  }

  /** Once an order is past the request, no later step makes the broker reachable for it, nor asks it again. */
  lemma {:induction false} RunUnreached(w: World, steps: seq<Step>, oid: int)
    requires RowsOk(w.rows) && oid in w.rows && !Fresh(w.rows[oid].status) && !MayReachBroker(w, oid)
    ensures !MayReachBroker(Run(w, steps), oid) && !MayHold(Run(w, steps), oid)
    ensures Run(w, steps).placeCalls[oid] == w.placeCalls[oid]
    decreases |steps|
  {
    hide MayReachBroker, MayHold, Next, RowOk;
    if |steps| == 0 {
      Unreached(w, oid);
    } else {
      NextRows(w, steps[0]);
      NextUnreached(w, steps[0], oid);
      assert RowStep(w.rows[oid], Next(w, steps[0]).rows[oid]);
      RunUnreached(Next(w, steps[0]), steps[1..], oid);
    }
  }

  lemma Unreached(w: World, oid: int)
    requires !MayReachBroker(w, oid)
    ensures !MayHold(w, oid)
  {
  }

  /** The worker `t` has closed its order as cancelled in `w`, with no cancel call sent since `before`. */
  predicate ClosedUnsent(before: World, w: World, t: nat, oid: int) {
    && t < |w.tasks| && w.tasks[t] == CancelDone(oid)
    && oid in w.rows && w.rows[oid].status.Cancelled?
    && w.cancelCalls[oid] == before.cancelCalls[oid]
  }

  /** So closed, while the broker may hold the order. */
  predicate LeftAtBroker(before: World, w: World, t: nat, oid: int) {
    ClosedUnsent(before, w, t, oid) && MayHold(w, oid)
  }

  lemma RunTwo(w: World, a: Step, b: Step)
    ensures Run(w, [a, b]) == Next(Next(w, a), b)
  {
    hide Next;
    assert [a, b][1..] == [b] && [b][1..] == [];
    assert Run(Next(w, a), [b]) == Run(Next(Next(w, a), b), []);
  }

  lemma {:induction false} RunMore(w: World, some: seq<Step>, more: seq<Step>)
    ensures Run(w, some + more) == Run(Run(w, some), more)
    decreases |some|
  {
    hide Next;
    if |some| == 0 {
      assert some + more == more;
    } else {
      assert (some + more)[1..] == some[1..] + more;
      RunMore(Next(w, some[0]), some[1..], more);
    }
  }

  /** The unsent close itself. */
  lemma ClosesUnsent(w: World, t: nat)
    requires t < |w.tasks| && w.tasks[t].CancelUnplaced?
    requires w.tasks[t].oid in w.rows && w.rows[w.tasks[t].oid].status.CancelSubmitting?
    ensures var oid := w.tasks[t].oid;
            var next := Next(w, Work(t, Write));
            && next.tasks == w.tasks[t := CancelDone(oid)]
            && next.rows == w.rows[oid := w.rows[oid].(status := Cancelled)]
            && next.placeCalls == w.placeCalls && next.cancelCalls == w.cancelCalls && next.answers == w.answers
  {
    assert WorkOn(w, t, Write) == Some(Effect(CancelDone(w.tasks[t].oid), w.rows[w.tasks[t].oid].(status := Cancelled)));
    NoAckFromCancel(w.tasks[t], Write, w.rows[w.tasks[t].oid]);
  }

  /** A claimed worker may call the broker whatever became of its row. */
  lemma CallsAnyway(w: World, p: nat)
    requires p < |w.tasks| && w.tasks[p].PlaceClaimed? && w.tasks[p].oid in w.rows
    ensures var oid := w.tasks[p].oid;
            var next := Next(w, Work(p, Call));
            && next.tasks == w.tasks[p := PlaceCalling(oid)]
            && next.rows == w.rows && next.cancelCalls == w.cancelCalls && next.placeCalls[oid] > 0 && next.answers == w.answers
  {
    hide Trim;
    assert WorkOn(w, p, Call) == Some(Effect(PlaceCalling(w.tasks[p].oid), w.rows[w.tasks[p].oid]));
    assert w.rows[w.tasks[p].oid := w.rows[w.tasks[p].oid]] == w.rows;
  }

  lemma CloseThenCall(w: World, t: nat) returns (more: seq<Step>)
    requires t < |w.tasks| && w.tasks[t].CancelUnplaced?
    requires w.tasks[t].oid in w.rows && w.rows[w.tasks[t].oid].status.CancelSubmitting?
    requires MayReachBroker(w, w.tasks[t].oid) && AnswersOk(w)
    ensures |more| > 0 && more[0] == Work(t, Write) && LeftAtBroker(w, Run(w, more), t, w.tasks[t].oid)
  {
    hide Next, HasPlace;
    var oid := w.tasks[t].oid;
    ClosesUnsent(w, t);
    var closed := Next(w, Work(t, Write));
    if MayHold(w, oid) {
      more := [Work(t, Write)];
      assert Run(w, more) == Run(closed, []);
    } else {
      var p :| 0 <= p < |w.tasks| && w.tasks[p] == PlaceClaimed(oid);
      more := [Work(t, Write), Work(p, Call)];
      RunTwo(w, more[0], more[1]);
      CallsAnyway(closed, p);
    }
  }

  /**
   * An unsent close, in any reachable state: the order it closes as cancelled can be at the broker,
   * then or in some continuation, exactly when the broker has been asked to place it and has not refused,
   * or a worker that claimed it has not called yet.
   */
  lemma UnsentCloseExactlyWhen(steps: seq<Step>, t: nat)
    ensures var w := Run(START, steps);
            t < |w.tasks| && w.tasks[t].CancelUnplaced?
            && w.tasks[t].oid in w.rows && w.rows[w.tasks[t].oid].status.CancelSubmitting? ==>
              var oid := w.tasks[t].oid;
              ((exists more :: |more| > 0 && more[0] == Work(t, Write) && LeftAtBroker(w, Run(w, more), t, oid))
               <==> MayReachBroker(w, oid))
  {
    hide Run, Next, MayReachBroker, MayHold, PlaceOk, AcksOk, LooksOk, RowOk, AnswersOk, ClosedUnsent;
    Reachable(steps);
    ReachableAnswers(steps);
    var w := Run(START, steps);
    if t < |w.tasks| && w.tasks[t].CancelUnplaced? && w.tasks[t].oid in w.rows && w.rows[w.tasks[t].oid].status.CancelSubmitting? {
      var oid := w.tasks[t].oid;
      if MayReachBroker(w, oid) {
        var more := CloseThenCall(w, t);
      } else {
        forall more | true ensures !LeftAtBroker(w, Run(w, more), t, oid) {
          RunUnreached(w, more, oid);
        }
      }
    }
  }

  lemma ReachableAnswers(steps: seq<Step>)
    ensures AnswersOk(Run(START, steps))
  {
    hide Run, Next;
    RunKeepsAnswers(START, steps);
  }

  lemma DeadlinePasses(w: World, t: nat)
    requires t < |w.tasks| && w.tasks[t].CancelPolling? && w.tasks[t].oid in w.rows
    ensures var next := Next(w, Work(t, Deadline));
            && next.tasks == w.tasks[t := CancelUnplaced(w.tasks[t].oid, w.tasks[t].seenAt, w.tasks[t].seen)]
            && next.rows == w.rows && next.placeCalls == w.placeCalls && next.cancelCalls == w.cancelCalls
            && next.answers == w.answers
  {
    hide Trim;
    var task := w.tasks[t];
    assert WorkOn(w, t, Deadline) == Some(Effect(CancelUnplaced(task.oid, task.seenAt, task.seen), w.rows[task.oid]));
    assert w.rows[task.oid := w.rows[task.oid]] == w.rows;
  }

  lemma ReachKept(w: World, next: World, oid: int, t: nat)
    requires MayReachBroker(w, oid) && t < |w.tasks| && !w.tasks[t].PlaceClaimed?
    requires |next.tasks| == |w.tasks| && next.placeCalls == w.placeCalls && next.answers == w.answers
    requires forall i :: 0 <= i < |w.tasks| && i != t ==> next.tasks[i] == w.tasks[i]
    ensures MayReachBroker(next, oid)
  {
    if !MayHold(w, oid) {
      var i :| 0 <= i < |w.tasks| && w.tasks[i] == PlaceClaimed(oid);
      assert next.tasks[i] == PlaceClaimed(oid);
    }
  }

  /**
   * The same condition decides already at the last look: from any reachable state in which a cancel
   * worker is still polling its claimed order, some continuation closes the order unsent and leaves it
   * at the broker exactly when the broker has been asked and has not refused or a claimed worker has not
   * called yet.
   */
  lemma LastLookExactlyWhen(steps: seq<Step>, t: nat)
    ensures var w := Run(START, steps);
            t < |w.tasks| && w.tasks[t].CancelPolling?
            && w.tasks[t].oid in w.rows && w.rows[w.tasks[t].oid].status.CancelSubmitting? ==>
              var oid := w.tasks[t].oid;
              ((exists more :: LeftAtBroker(w, Run(w, more), t, oid)) <==> MayReachBroker(w, oid))
  {
    hide Run, Next, MayReachBroker, MayHold, PlaceOk, AcksOk, LooksOk, RowOk, AnswersOk, ClosedUnsent;
    Reachable(steps);
    ReachableAnswers(steps);
    var w := Run(START, steps);
    if t < |w.tasks| && w.tasks[t].CancelPolling? && w.tasks[t].oid in w.rows && w.rows[w.tasks[t].oid].status.CancelSubmitting? {
      var oid := w.tasks[t].oid;
      if MayReachBroker(w, oid) {
        PollEnds(w, t);
      } else {
        forall more | true ensures !LeftAtBroker(w, Run(w, more), t, oid) {
          RunUnreached(w, more, oid);
        }
      }
    }
  }

  lemma PollEnds(w: World, t: nat)
    requires t < |w.tasks| && w.tasks[t].CancelPolling? && MayReachBroker(w, w.tasks[t].oid) && AnswersOk(w)
    requires w.tasks[t].oid in w.rows && w.rows[w.tasks[t].oid].status.CancelSubmitting?
    ensures exists more :: LeftAtBroker(w, Run(w, more), t, w.tasks[t].oid)
  {
    hide Next, MayReachBroker, MayHold, HasPlace;
    var waited := Next(w, Work(t, Deadline));
    DeadlinePasses(w, t);
    WaitKeepsAnswers(w, waited, t);
    ReachKept(w, waited, w.tasks[t].oid, t);
    var more := CloseThenCall(waited, t);
    assert Run(w, [Work(t, Deadline)]) == Run(waited, []);
    RunMore(w, [Work(t, Deadline)], more);
    assert LeftAtBroker(w, Run(w, [Work(t, Deadline)] + more), t, w.tasks[t].oid);
  }

  lemma WaitKeepsAnswers(w: World, next: World, t: nat)
    requires AnswersOk(w) && t < |w.tasks| && !IsPlace(w.tasks[t]) && next.answers == w.answers
    requires |next.tasks| == |w.tasks| && !IsPlace(next.tasks[t]) && next.tasks[t].oid == w.tasks[t].oid
    requires next.tasks == w.tasks[t := next.tasks[t]]
    ensures AnswersOk(next)
  {
    hide HasPlace;
    forall oid | oid in w.answers ensures HasPlace(next.tasks, oid) {
      HasPlaceUpdate(w.tasks, t, next.tasks[t], oid);
    }
  }

  /** The broker took the order, or its place worker is between the claim and the answer. */
  ghost predicate CanBeAccepted(w: World, oid: int) {
    if oid in w.answers then w.answers[oid] == Placed
    else exists t :: 0 <= t < |w.tasks| && (w.tasks[t] == PlaceClaimed(oid) || w.tasks[t] == PlaceCalling(oid))
  }

  predicate Taken(w: World, oid: int) { oid in w.answers && w.answers[oid] == Placed }

  lemma NextUntaken(w: World, s: Step, oid: int)
    requires RowsOk(w.rows) && oid in w.rows && !Fresh(w.rows[oid].status) && !CanBeAccepted(w, oid)
    ensures !CanBeAccepted(Next(w, s), oid)
  {
    hide WorkOn, FillOrder, WritesAck, RowOk, HandleOf;
    if Enabled(w, s) && s.Work? {
      RowAt(w.rows, w.tasks[s.t].oid);
      WorkRowStep(w, s.t, s.event);
      OnlyClaimedCalls(w, s.t, s.event);
    }
  }

  lemma OnlyClaimedCalls(w: World, t: nat, e: WorkEvent)
    requires t < |w.tasks| && w.tasks[t].oid in w.rows && WorkOn(w, t, e).Some?
    ensures WorkOn(w, t, e).value.task.PlaceCalling? ==> w.tasks[t].PlaceClaimed?
  {
    hide Trim;
  }

  lemma {:induction false} RunUntaken(w: World, steps: seq<Step>, oid: int)
    requires RowsOk(w.rows) && oid in w.rows && !Fresh(w.rows[oid].status) && !CanBeAccepted(w, oid)
    ensures !Taken(Run(w, steps), oid)
    decreases |steps|
  {
    hide Next, RowOk;
    if |steps| > 0 {
      NextRows(w, steps[0]);
      NextUntaken(w, steps[0], oid);
      assert RowStep(w.rows[oid], Next(w, steps[0]).rows[oid]);
      RunUntaken(Next(w, steps[0]), steps[1..], oid);
    }
  }

  lemma AnswerArrives(w: World, p: nat)
    requires p < |w.tasks| && w.tasks[p].PlaceCalling? && w.tasks[p].oid in w.rows && w.tasks[p].oid !in w.answers
    ensures var oid := w.tasks[p].oid;
            var next := Next(w, Work(p, VendorAck("1")));
            && next.tasks == w.tasks[p := PlaceAcked(oid, "1")]
            && next.rows == w.rows && next.cancelCalls == w.cancelCalls && Taken(next, oid)
  {
    hide Trim;
    assert WorkOn(w, p, VendorAck("1")) == Some(Effect(PlaceAcked(w.tasks[p].oid, "1"), w.rows[w.tasks[p].oid]));
    assert w.rows[w.tasks[p].oid := w.rows[w.tasks[p].oid]] == w.rows;
  }

  lemma RunThree(w: World, a: Step, b: Step, c: Step)
    ensures Run(w, [a, b, c]) == Next(Next(Next(w, a), b), c)
  {
    hide Next;
    assert [a, b, c][1..] == [b, c];
    RunTwo(Next(w, a), b, c);
  }

  lemma CloseThenAnswer(w: World, t: nat) returns (more: seq<Step>)
    requires t < |w.tasks| && w.tasks[t].CancelUnplaced?
    requires w.tasks[t].oid in w.rows && w.rows[w.tasks[t].oid].status.CancelSubmitting?
    requires CanBeAccepted(w, w.tasks[t].oid)
    ensures var oid := w.tasks[t].oid;
            |more| > 0 && more[0] == Work(t, Write) && ClosedUnsent(w, Run(w, more), t, oid) && Taken(Run(w, more), oid)
  {
    hide Next;
    var oid := w.tasks[t].oid;
    ClosesUnsent(w, t);
    var closed := Next(w, Work(t, Write));
    if oid in w.answers {
      more := [Work(t, Write)];
      assert Run(w, more) == Run(closed, []);
    } else {
      var p :| 0 <= p < |w.tasks| && (w.tasks[p] == PlaceClaimed(oid) || w.tasks[p] == PlaceCalling(oid));
      if w.tasks[p].PlaceCalling? {
        more := [Work(t, Write), Work(p, VendorAck("1"))];
        RunTwo(w, more[0], more[1]);
        AnswerArrives(closed, p);
      } else {
        more := [Work(t, Write), Work(p, Call), Work(p, VendorAck("1"))];
        RunThree(w, more[0], more[1], more[2]);
        CallsAnyway(closed, p);
        AnswerArrives(Next(closed, Work(p, Call)), p);
      }
    }
  }

  /**
   * And the broker takes, or has taken, an order closed unsent in some continuation exactly when it has
   * taken it already, or its place worker is between the claim and the answer.
   */
  lemma TakenOrderExactlyWhen(steps: seq<Step>, t: nat)
    ensures var w := Run(START, steps);
            t < |w.tasks| && w.tasks[t].CancelUnplaced?
            && w.tasks[t].oid in w.rows && w.rows[w.tasks[t].oid].status.CancelSubmitting? ==>
              var oid := w.tasks[t].oid;
              ((exists more :: |more| > 0 && more[0] == Work(t, Write) && ClosedUnsent(w, Run(w, more), t, oid) && Taken(Run(w, more), oid))
               <==> CanBeAccepted(w, oid))
  {
    hide Run, Next, CanBeAccepted, Taken, PlaceOk, AcksOk, LooksOk, RowOk, ClosedUnsent;
    Reachable(steps);
    var w := Run(START, steps);
    if t < |w.tasks| && w.tasks[t].CancelUnplaced? && w.tasks[t].oid in w.rows && w.rows[w.tasks[t].oid].status.CancelSubmitting? {
      var oid := w.tasks[t].oid;
      if CanBeAccepted(w, oid) {
        var more := CloseThenAnswer(w, t);
      } else {
        forall more | true ensures !Taken(Run(w, more), oid) {
          RunUntaken(w, more, oid);
        }
      }
    }
  }

  /** A closed row takes no acknowledgement: the order it left at the broker keeps no handle to cancel it by. */
  lemma ClosedTakesNoAck(o: Order, oid: int, handle: string)
    requires Terminal(o.status)
    ensures WorkPlace(PlaceAcked(oid, handle), o, Write) == Some(Effect(PlaceAttaching(oid, handle), o))
    ensures WorkPlace(PlaceAttaching(oid, handle), o, Write) == Some(Effect(PlaceDone(oid), o))
  {
    hide Trim;
  }

  // ---------------------------------------------------------------- the blank acknowledgement

  /** Every requested order can reach its acknowledgement. */
  function Placing(oid: int, o: Order, handle: string): seq<Step> {
    [InsertOrder(oid, o), ClaimPlace(oid)] + [Work(0, Call), Work(0, VendorAck(handle))]
  }

  lemma PlacingAcks(oid: int, o: Order, handle: string)
    requires NewOrder(o) && o.status.Requested?
    ensures Run(START, Placing(oid, o, handle))
            == World(map[oid := o.(status := Submitting)], [PlaceAcked(oid, handle)], multiset{oid}, multiset{},
                 map[oid := Placed], map[], 4)
  {
    hide Trim, FillOrder, NewOrder, Run, HandleOf;
    var w1 := Next(START, InsertOrder(oid, o));
    var w2 := Next(w1, ClaimPlace(oid));
    assert w2.rows == map[oid := o.(status := Submitting)];
    assert w2 == World(w2.rows, [PlaceClaimed(oid)], multiset{}, multiset{}, map[], map[], 2);
    RunTwo(START, InsertOrder(oid, o), ClaimPlace(oid));
    PlacingCalls(w2, oid, handle);
    RunTwo(w2, Work(0, Call), Work(0, VendorAck(handle)));
    RunMore(START, [InsertOrder(oid, o), ClaimPlace(oid)], [Work(0, Call), Work(0, VendorAck(handle))]);
  }

  lemma PlacingCalls(w: World, oid: int, handle: string)
    requires w.tasks == [PlaceClaimed(oid)] && w.rows.Keys == {oid}
    requires w.placeCalls == multiset{} && w.cancelCalls == multiset{} && w.answers == map[] && w.ackWritten == map[]
    ensures Next(Next(w, Work(0, Call)), Work(0, VendorAck(handle)))
            == World(w.rows, [PlaceAcked(oid, handle)], multiset{oid}, multiset{},
                 map[oid := Placed], map[], w.clock + 2)
  {
    hide Trim;
    assert w.rows[oid := w.rows[oid]] == w.rows;
    var called := Next(w, Work(0, Call));
    assert called == World(w.rows, [PlaceCalling(oid)], multiset{oid}, multiset{}, map[], map[], w.clock + 1);
  }

  /** The row of a blank acknowledgement, requested to be cancelled and claimed. */
  lemma BlankAckClaimed(w: World, t: nat)
    requires t < |w.tasks| && w.tasks[t].PlaceAcked? && w.tasks[t].handle == ""
    requires w.tasks[t].oid in w.rows && w.rows[w.tasks[t].oid].status.Submitting?
    ensures var oid := w.tasks[t].oid;
            var claimed := Next(Next(Next(w, Work(t, Write)), BackendCancel(oid)), ClaimCancel(oid));
            && claimed.tasks == w.tasks[t := PlacePublishing(oid)] + [CancelUnplaced(oid, w.clock + 2, Some(""))]
            && oid in claimed.rows && claimed.rows[oid].status.CancelSubmitting?
            && claimed.placeCalls == w.placeCalls && claimed.cancelCalls == w.cancelCalls
            && oid in claimed.ackWritten && (oid !in w.ackWritten ==> claimed.ackWritten[oid] == w.clock)
  {
    hide Trim, FillOrder;
    var oid := w.tasks[t].oid;
    var acked := Next(w, Work(t, Write));
    assert WorkOn(w, t, Write) == Some(Effect(PlacePublishing(oid), Accept(w.rows[oid], "")));
    assert acked.rows[oid] == Accept(w.rows[oid], "");
    var requested := Next(acked, BackendCancel(oid));
    assert requested.rows[oid] == Accept(w.rows[oid], "").(status := CancelRequested);
    assert HandleOf(requested.rows[oid]) == Some("");
  }

  /**
   * The blank acknowledgement: an order the broker accepts without an order number is stored with a
   * blank handle, and its cancellation then closes it without a cancel call, though the acknowledgement
   * was written before the cancel worker first looked. Every requested order can go this way.
   */
  lemma BlankAckClosesUnsent(oid: int, o: Order)
    requires NewOrder(o) && o.status.Requested?
    ensures var w := Run(START, Placing(oid, o, "") + [Work(0, Write), BackendCancel(oid), ClaimCancel(oid)]);
            var closed := Next(w, Work(1, Write));
            && oid in w.rows && w.rows[oid].status.CancelSubmitting? && oid in w.ackWritten
            && (exists seenAt :: w.tasks == [PlacePublishing(oid), CancelUnplaced(oid, seenAt, Some(""))] && w.ackWritten[oid] < seenAt)
            && oid in closed.rows && closed.rows[oid].status.Cancelled?
            && closed.placeCalls[oid] == 1 && closed.cancelCalls[oid] == 0
  {
    hide Run, Next, NewOrder;
    PlacingAcks(oid, o, "");
    var w := Run(START, Placing(oid, o, ""));
    BlankAckClaimed(w, 0);
    var claimed := Next(Next(Next(w, Work(0, Write)), BackendCancel(oid)), ClaimCancel(oid));
    ClosesUnsent(claimed, 1);
    RunThree(w, Work(0, Write), BackendCancel(oid), ClaimCancel(oid));
    RunMore(START, Placing(oid, o, ""), [Work(0, Write), BackendCancel(oid), ClaimCancel(oid)]);
    assert claimed.tasks == [PlacePublishing(oid), CancelUnplaced(oid, 6, Some(""))];
  }

  // ---------------------------------------------------------------- the late acknowledgement

  /** After the acknowledgement and before it is written: a cancel is requested, claimed and waits to the deadline. */
  function Waiting(oid: int): seq<Step> {
    [BackendCancel(oid), ClaimCancel(oid)] + [Work(1, Poll), Work(1, Deadline)]
  }

  /** Requested and claimed while the place worker holds an acknowledgement: the cancel worker has no handle to go by. */
  lemma CancelClaims(w: World, oid: int, handle: string)
    requires w.tasks == [PlaceAcked(oid, handle)] && w.rows.Keys == {oid}
    requires w.rows[oid].status.Submitting? && HandleOf(w.rows[oid]).None?
    ensures var claimed := Next(Next(w, BackendCancel(oid)), ClaimCancel(oid));
            && claimed.tasks == [PlaceAcked(oid, handle), CancelPolling(oid, w.clock + 1, None)] && claimed.clock == w.clock + 2
            && claimed.rows == map[oid := w.rows[oid].(status := CancelSubmitting)]
            && claimed.placeCalls == w.placeCalls && claimed.cancelCalls == w.cancelCalls && claimed.answers == w.answers
  {
    hide Trim, FillOrder, WorkOn, WritesAck;
    var requested := Next(w, BackendCancel(oid));
    assert requested.rows == map[oid := w.rows[oid].(status := CancelRequested)];
  }

  lemma PollSeesNone(w: World, t: nat)
    requires t < |w.tasks| && w.tasks[t].CancelPolling? && w.tasks[t].oid in w.rows
    requires HandleOf(w.rows[w.tasks[t].oid]).None? && w.rows[w.tasks[t].oid].status.CancelSubmitting?
    ensures var next := Next(w, Work(t, Poll));
            && next.tasks == w.tasks[t := CancelPolling(w.tasks[t].oid, w.clock, None)]
            && next.rows == w.rows && next.placeCalls == w.placeCalls && next.cancelCalls == w.cancelCalls
            && next.answers == w.answers
  {
    hide Trim;
    var oid := w.tasks[t].oid;
    assert WorkOn(w, t, Poll) == Some(Effect(CancelPolling(oid, w.clock, None), w.rows[oid]));
    assert w.rows[oid := w.rows[oid]] == w.rows;
  }

  lemma WaitingPolls(w: World, oid: int, handle: string)
    requires w.tasks == [PlaceAcked(oid, handle)] && w.rows.Keys == {oid}
    requires w.rows[oid].status.Submitting? && HandleOf(w.rows[oid]).None?
    ensures var late := Run(w, Waiting(oid));
            && late.tasks == [PlaceAcked(oid, handle), CancelUnplaced(oid, w.clock + 2, None)]
            && late.rows == map[oid := w.rows[oid].(status := CancelSubmitting)]
            && late.placeCalls == w.placeCalls && late.cancelCalls == w.cancelCalls && late.answers == w.answers
  {
    hide Run, Next;
    var claimed := Next(Next(w, BackendCancel(oid)), ClaimCancel(oid));
    CancelClaims(w, oid, handle);
    PollSeesNone(claimed, 1);
    DeadlinePasses(Next(claimed, Work(1, Poll)), 1);
    RunTwo(w, BackendCancel(oid), ClaimCancel(oid));
    RunTwo(claimed, Work(1, Poll), Work(1, Deadline));
    RunMore(w, [BackendCancel(oid), ClaimCancel(oid)], [Work(1, Poll), Work(1, Deadline)]);
  }

  /** A write of a worker whose closed row does not take it. */
  lemma ClosedWrite(w: World, t: nat, task: Task)
    requires t < |w.tasks| && w.tasks[t].oid in w.rows && Terminal(w.rows[w.tasks[t].oid].status)
    requires w.tasks[t].PlaceAcked? || w.tasks[t].PlaceAttaching?
    requires task == if w.tasks[t].PlaceAcked? then PlaceAttaching(w.tasks[t].oid, w.tasks[t].handle) else PlaceDone(w.tasks[t].oid)
    ensures var next := Next(w, Work(t, Write));
            && next.tasks == w.tasks[t := task] && next.rows == w.rows
            && next.placeCalls == w.placeCalls && next.cancelCalls == w.cancelCalls && next.answers == w.answers
  {
    hide Trim;
    var oid := w.tasks[t].oid;
    ClosedTakesNoAck(w.rows[oid], oid, w.tasks[t].handle);
    assert WorkOn(w, t, Write) == Some(Effect(task, w.rows[oid]));
    assert w.rows[oid := w.rows[oid]] == w.rows;
  }

  /** The close, and then the acknowledgement, which the closed row does not take. */
  lemma WrittenTooLate(w: World, oid: int, handle: string)
    requires w.rows.Keys == {oid} && w.rows[oid].status.CancelSubmitting?
    requires |w.tasks| == 2 && w.tasks[0] == PlaceAcked(oid, handle) && w.tasks[1].CancelUnplaced? && w.tasks[1].oid == oid
    ensures var closed := Run(w, [Work(1, Write), Work(0, Write), Work(0, Write)]);
            && closed.tasks == [PlaceDone(oid), CancelDone(oid)]
            && closed.rows == map[oid := w.rows[oid].(status := Cancelled)]
            && closed.placeCalls == w.placeCalls && closed.cancelCalls == w.cancelCalls && closed.answers == w.answers
  {
    hide Run, Next;
    var closed := Next(w, Work(1, Write));
    ClosesUnsent(w, 1);
    ClosedWrite(closed, 0, PlaceAttaching(oid, handle));
    ClosedWrite(Next(closed, Work(0, Write)), 0, PlaceDone(oid));
    RunThree(w, Work(1, Write), Work(0, Write), Work(0, Write));
  }

  /**
   * Every requested order can go this way: the broker takes it, the acknowledgement is not written before
   * the cancel worker's last look, and the order is closed as cancelled with no cancel call and no handle.
   */
  lemma LateAckLeftAtBroker(oid: int, o: Order, handle: string)
    requires NewOrder(o) && o.status.Requested?
    ensures var w := Run(START, Placing(oid, o, handle) + Waiting(oid));
            var closed := Run(w, [Work(1, Write), Work(0, Write), Work(0, Write)]);
            && |w.tasks| == 2 && w.tasks[1].CancelUnplaced? && w.tasks[1].oid == oid && w.tasks[1].seen.None?
            && oid in w.rows && w.rows[oid].status.CancelSubmitting?
            && MayReachBroker(w, oid) && CanBeAccepted(w, oid)
            && LeftAtBroker(w, closed, 1, oid) && Taken(closed, oid) && closed.cancelCalls[oid] == 0
            && HandleOf(closed.rows[oid]).None? && closed.tasks == [PlaceDone(oid), CancelDone(oid)]
  {
    hide Run, Next;
    PlacingAcks(oid, o, handle);
    var acked := Run(START, Placing(oid, o, handle));
    WaitingPolls(acked, oid, handle);
    RunMore(START, Placing(oid, o, handle), Waiting(oid));
    WrittenTooLate(Run(acked, Waiting(oid)), oid, handle);
  }
}
