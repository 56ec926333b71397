/** What the broker's answers make of an order, over every interleaving of workers, fills and the back end. */
module OrderAnswers {
  import opened Wrappers
  import opened ScaledDecimal
  import opened PositionBook
  import opened Orders
  import opened OrderProtocol

  // ---------------------------------------------------------------- the answer decides the row

  /** The world after a worker is answered and writes. */
  function AnsweredAndWritten(w: World, t: nat, answer: WorkEvent): World {
    Next(Next(w, Work(t, answer)), Work(t, Write))
  }

  /**
   * A place call that is answered moves its order, while it is still being submitted, to accepted with
   * the broker's number, to rejected on a refusal and to failed on an error, and moves nothing else. An
   * order taken away meanwhile is left as it is by a refusal or an error.
   */
  lemma PlaceAnswerDecides(w: World, t: nat, answer: WorkEvent)
    requires t < |w.tasks| && w.tasks[t].PlaceCalling? && w.tasks[t].oid in w.rows
    requires answer.VendorAck? || answer.VendorError?
    ensures var oid := w.tasks[t].oid;
            var o := w.rows[oid];
            var rows := AnsweredAndWritten(w, t, answer).rows;
            && (answer.VendorAck? && o.status.Submitting? ==>
                  rows == w.rows[oid := o.(status := Accepted, brokerOrderId := Some(answer.handle), externalOrderId := Some(answer.handle))])
            && (answer.VendorAck? && !o.status.Submitting? ==> rows == w.rows)
            && (answer.VendorError? && o.status.Submitting? ==>
                  rows == w.rows[oid := o.(status := if answer.rejected then Rejected else Failed)])
            && (answer.VendorError? && !o.status.Submitting? ==> rows == w.rows)
  {
    hide Trim, FillOrder, HandleOf;
  }

  /** A request that could not be sent fails its order, and asks the broker nothing. */
  lemma UnsentFails(w: World, t: nat)
    requires t < |w.tasks| && w.tasks[t].PlaceClaimed? && w.tasks[t].oid in w.rows
    ensures var oid := w.tasks[t].oid;
            var after := AnsweredAndWritten(w, t, GiveUp);
            && after.rows == (if w.rows[oid].status.Submitting? then w.rows[oid := w.rows[oid].(status := Failed)] else w.rows)
            && after.placeCalls == w.placeCalls && after.cancelCalls == w.cancelCalls
  {
    hide Trim, FillOrder, HandleOf;
  }

  /** A cancel call that is answered closes its order as cancelled, or as failed on an error, while the cancel still has it. */
  lemma CancelAnswerDecides(w: World, t: nat, answer: WorkEvent)
    requires t < |w.tasks| && w.tasks[t].CancelCalling? && w.tasks[t].oid in w.rows
    requires answer.VendorAck? || answer.VendorError?
    ensures var oid := w.tasks[t].oid;
            var o := w.rows[oid];
            AnsweredAndWritten(w, t, answer).rows
            == if o.status.CancelSubmitting? then w.rows[oid := o.(status := if answer.VendorAck? then Cancelled else Failed)] else w.rows
  {
    hide Trim, FillOrder, HandleOf;
  }

  /** The handle columns of a row hold this handle first: the external one, or the broker's when there is none. */
  predicate FirstHandle(o: Order, handle: string) {
    o.externalOrderId == Some(handle) || (o.externalOrderId.None? && o.brokerOrderId == Some(handle))
  }

  /**
   * A look of a waiting cancel worker moves no row. It goes on to call the broker with the first handle
   * when that is not blank; without one it stops waiting exactly when the row has left the claim.
   */
  lemma LookDecides(w: World, t: nat)
    requires t < |w.tasks| && w.tasks[t].CancelPolling? && w.tasks[t].oid in w.rows
    ensures var o := w.rows[w.tasks[t].oid];
            var next := Next(w, Work(t, Poll));
            && next.rows == w.rows && next.placeCalls == w.placeCalls && next.cancelCalls == w.cancelCalls
            && next.tasks == w.tasks[t := next.tasks[t]] && next.tasks[t].oid == w.tasks[t].oid
            && (next.tasks[t].CancelReady? <==> exists handle :: handle != "" && FirstHandle(o, handle))
            && (next.tasks[t].CancelReady? ==> FirstHandle(o, next.tasks[t].handle))
            && (next.tasks[t].CancelUnplaced? <==> !next.tasks[t].CancelReady? && !o.status.CancelSubmitting?)
            && (next.tasks[t].CancelPolling? <==> !next.tasks[t].CancelReady? && o.status.CancelSubmitting?)
  {
    hide Trim, FillOrder;
    var o := w.rows[w.tasks[t].oid];
    var handle := o.externalOrderId.GetOr(o.brokerOrderId.GetOr(""));
    assert handle != "" ==> FirstHandle(o, handle);
  }

  // ---------------------------------------------------------------- rejected means refused

  predicate WasRefused(answers: map<int, Answer>, oid: int) { oid in answers && answers[oid] == Refused }

  predicate TaskRefusal(answers: map<int, Answer>, task: Task) {
    task.PlaceFailing? && task.rejected ==> WasRefused(answers, task.oid)
  }

  ghost predicate RowRefusal(w: World, oid: int) {
    oid in w.rows && HasPlace(w.tasks, oid) && w.rows[oid].status.Rejected? ==> WasRefused(w.answers, oid)
  }

  ghost predicate RefusalsOk(w: World) {
    && (forall t :: 0 <= t < |w.tasks| ==> TaskRefusal(w.answers, w.tasks[t]))
    && (forall oid :: RowRefusal(w, oid))
  }

  lemma AnswersStay(answers: map<int, Answer>, task: Task, e: WorkEvent, oid: int)
    ensures WasRefused(answers, oid) ==> WasRefused(Answered(answers, task, e), oid)
  {
  }

  /** Only a refused call leads a place worker to write a rejection. */
  lemma WorkRefusal(w: World, t: nat, e: WorkEvent)
    requires Enabled(w, Work(t, e)) && TaskAnswered(w.answers, w.tasks[t]) && TaskRefusal(w.answers, w.tasks[t])
    ensures var effect := WorkOn(w, t, e).value;
            && TaskRefusal(Answered(w.answers, w.tasks[t], e), effect.task)
            && (effect.row.status.Rejected? ==> w.rows[w.tasks[t].oid].status.Rejected? || WasRefused(w.answers, w.tasks[t].oid))
  {
    hide Trim;
  }

  lemma WorkRefusalsOk(w: World, t: nat, e: WorkEvent)
    requires RefusalsOk(w) && AnswersOk(w) && RowsOk(w.rows) && Enabled(w, Work(t, e))
    ensures RefusalsOk(Next(w, Work(t, e)))
  {
    hide HasPlace, WorkOn, WritesAck, RowOk, RowsOk, RowStep, TaskAnswered, TaskRefusal, WasRefused, Answered;
    var next := Next(w, Work(t, e));
    var task, effect := w.tasks[t], WorkOn(w, t, e).value;
    RowAt(w.rows, task.oid);
    WorkRowStep(w, t, e);
    assert TaskAnswered(w.answers, task) && TaskRefusal(w.answers, task);
    WorkRefusal(w, t, e);
    forall i | 0 <= i < |next.tasks| ensures TaskRefusal(next.answers, next.tasks[i]) {
      if i != t {
        TaskRefusalStays(w.answers, task, e, w.tasks[i]);
      }
    }
    forall oid ensures RowRefusal(next, oid) {
      HasPlaceUpdate(w.tasks, t, effect.task, oid);
      AnswersStay(w.answers, task, e, oid);
      assert RowRefusal(w, oid);
    }
  }

  lemma TaskRefusalStays(answers: map<int, Answer>, task: Task, e: WorkEvent, other: Task)
    requires TaskRefusal(answers, other)
    ensures TaskRefusal(Answered(answers, task, e), other)
  {
  }

  lemma FillNotRejected(o: Order, p: Payload)
    requires RowOk(o) && FillOrder(o, p).status.Rejected?
    ensures o.status.Rejected?
  {
    hide FillOrder;
    FillEffect(o, p);
  }

  lemma NextRefusalsOk(w: World, s: Step)
    requires RefusalsOk(w) && AnswersOk(w) && PlaceOk(w) && RowsOk(w.rows)
    ensures RefusalsOk(Next(w, s))
  {
    hide HasPlace, FillOrder, WorkOn, WritesAck, RowOk, RowsOk, ClaimedCancel, TaskRefusal, WasRefused, AnswersOk;
    if Enabled(w, s) {
      match s
      case InsertOrder(oid, o) =>
        NoneBeforeInsert(w, oid);
        InsertRefusalsOk(w, oid, o);
      case ClaimPlace(oid) =>
        ClaimRefusalsOk(w, oid, PlaceClaimed(oid), Submitting);
      case ClaimCancel(oid) =>
        ClaimedIsCancel(oid, w.rows[oid], w.clock);
        ClaimRefusalsOk(w, oid, ClaimedCancel(oid, w.rows[oid], w.clock), CancelSubmitting);
      case FillArrives(oid, p) =>
        RowAt(w.rows, oid);
        forall id ensures RowRefusal(Next(w, s), id) {
          assert RowRefusal(w, id);
          if id == oid && FillOrder(w.rows[oid], p).status.Rejected? {
            FillNotRejected(w.rows[oid], p);
          }
        }
      case Work(t, e) => WorkRefusalsOk(w, t, e);
      case _ =>
        forall id ensures RowRefusal(Next(w, s), id) {
          assert RowRefusal(w, id);
        }
    } else {
      forall id ensures RowRefusal(Next(w, s), id) {
        assert RowRefusal(w, id);
      }
    }
  }

  lemma NoneBeforeInsert(w: World, oid: int)
    requires PlaceOk(w) && oid !in w.rows
    ensures !HasPlace(w.tasks, oid)
  {
  }

  lemma InsertRefusalsOk(w: World, oid: int, o: Order)
    requires RefusalsOk(w) && !HasPlace(w.tasks, oid)
    ensures RefusalsOk(w.(rows := w.rows[oid := o], clock := w.clock + 1))
  {
    hide HasPlace, WasRefused;
    var next := w.(rows := w.rows[oid := o], clock := w.clock + 1);
    forall id ensures RowRefusal(next, id) {
      assert RowRefusal(w, id);
    }
  }

  lemma ClaimRefusalsOk(w: World, oid: int, task: Task, status: OrderStatus)
    requires RefusalsOk(w) && oid in w.rows && task.oid == oid && !task.PlaceFailing? && !status.Rejected?
    ensures RefusalsOk(w.(rows := w.rows[oid := w.rows[oid].(status := status)], tasks := w.tasks + [task], clock := w.clock + 1))
  {
    hide HasPlace, WasRefused;
    var next := w.(rows := w.rows[oid := w.rows[oid].(status := status)], tasks := w.tasks + [task], clock := w.clock + 1);
    forall id ensures RowRefusal(next, id) {
      HasPlaceAppend(w.tasks, task, id);
      assert RowRefusal(w, id);
    }
  }

  lemma {:induction false} RunKeepsRefusals(w: World, steps: seq<Step>)
    requires Inv(w) && AnswersOk(w) && RefusalsOk(w)
    ensures RefusalsOk(Run(w, steps))
    decreases |steps|
  {
    hide RowsOk, PlaceOk, AcksOk, LooksOk, AnswersOk, RefusalsOk, Next;
    if |steps| > 0 {
      NextRows(w, steps[0]);
      NextPlaceOk(w, steps[0]);
      NextAcksOk(w, steps[0]);
      NextLooksOk(w, steps[0]);
      NextAnswersOk(w, steps[0]);
      NextRefusalsOk(w, steps[0]);
      RunKeepsRefusals(Next(w, steps[0]), steps[1..]);
    }
  }

  /** In every reachable state, an order that a place worker has claimed is rejected only if the broker refused it. */
  lemma RejectedWasRefused(steps: seq<Step>, oid: int)
    ensures var w := Run(START, steps);
            oid in w.rows && HasPlace(w.tasks, oid) && w.rows[oid].status.Rejected? ==> oid in w.answers && w.answers[oid] == Refused
  {
    hide Run, Next, HasPlace;
    assert AnswersOk(START) && RefusalsOk(START) by { StartRefusals(); }
    RunKeepsRefusals(START, steps);
    assert RowRefusal(Run(START, steps), oid);
  }

  lemma StartRefusals()
    ensures AnswersOk(START) && RefusalsOk(START)
  {
  }
}
