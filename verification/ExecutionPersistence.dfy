/** The persistence service: the transactions of the tracker over its tables, updated in place. */
module ExecutionPersistence {
  import opened Wrappers
  import opened PositionBook
  import opened Orders
  import opened FillLedger
  import opened FillRuns
  import opened UnmatchedProgress

  function RetryEvents(picked: seq<nat>, now: int): (events: seq<Event>)
    ensures |events| == |picked|
    ensures forall k :: 0 <= k < |picked| ==> events[k] == RetryRow(picked[k], now)
  {
    seq(|picked|, k requires 0 <= k < |picked| => RetryRow(picked[k], now))
  }

  predicate Earlier(a: UnmatchedRow, b: UnmatchedRow) {
    b.nextRetryAt.None? || (a.nextRetryAt.Some? && a.nextRetryAt.value <= b.nextRetryAt.value)
  }

  /** The answer of the pending query: at most `limit` distinct pending rows, those with the earliest retry times, in that order. */
  ghost predicate PendingQuery(rows: seq<UnmatchedRow>, limit: nat, picked: seq<nat>) {
    && |picked| <= limit
    && (forall k :: 0 <= k < |picked| ==> picked[k] < |rows| && rows[picked[k]].status.Pending?)
    && (forall j, k :: 0 <= j < k < |picked| ==> picked[j] != picked[k])
    && (|picked| < limit ==> forall i :: 0 <= i < |rows| && rows[i].status.Pending? ==> i in picked)
    && (forall k, i :: 0 <= k < |picked| && 0 <= i < |rows| && rows[i].status.Pending? && i !in picked ==>
          Earlier(rows[picked[k]], rows[i]))
    && (forall j, k :: 0 <= j < k < |picked| ==> Earlier(rows[picked[j]], rows[picked[k]]))
  }

  /** A sweep over the picked rows: each due one is retried in turn, and a unique violation ends it there. False is that exception. */
  function Sweep(cfg: TrackerConfig, l: Ledger, picked: seq<nat>, now: int): (Ledger, bool)
    decreases |picked|
  {
    if |picked| == 0 then (l, true)
    else if picked[0] >= |l.unmatched| || !Due(l.unmatched[picked[0]], now) then Sweep(cfg, l, picked[1..], now)
    else
      var (next, outcome) := Retry(cfg, l, picked[0], now);
      if outcome.Aborted? then (next, false) else Sweep(cfg, next, picked[1..], now)
  }

  lemma SweepTurn(cfg: TrackerConfig, l: Ledger, picked: seq<nat>, done: nat, now: int)
    requires done < |picked| && picked[done] < |l.unmatched|
    ensures Sweep(cfg, l, picked[done..], now)
            == if !Due(l.unmatched[picked[done]], now) then Sweep(cfg, l, picked[done + 1..], now)
               else if Retry(cfg, l, picked[done], now).1.Aborted? then (Retry(cfg, l, picked[done], now).0, false)
               else Sweep(cfg, Retry(cfg, l, picked[done], now).0, picked[done + 1..], now)
  {
    hide Retry, Due;
    assert picked[done..][0] == picked[done] && picked[done..][1..] == picked[done + 1..];
  }

  lemma NothingSwept(cfg: TrackerConfig, picked: seq<nat>, now: int)
    ensures picked[0..] == picked && picked[|picked|..] == []
    ensures forall l :: Sweep(cfg, l, [], now) == (l, true)
  {
  }

  /** A pending row whose retry time has come and is before every other pending row's. */
  ghost predicate Heads(rows: seq<UnmatchedRow>, i: nat, now: int) {
    && i < |rows| && rows[i].status.Pending? && rows[i].nextRetryAt.Some? && rows[i].nextRetryAt.value <= now
    && forall k :: 0 <= k < |rows| && k != i && rows[k].status.Pending? ==> !Earlier(rows[k], rows[i])
  }

  lemma HeadIsFirst(rows: seq<UnmatchedRow>, limit: nat, picked: seq<nat>, i: nat, now: int)
    requires PendingQuery(rows, limit, picked) && limit > 0 && Heads(rows, i, now)
    ensures |picked| > 0 && picked[0] == i
  {
    assert i in picked || (|picked| == limit && Earlier(rows[picked[0]], rows[i]));
  }

  /** One sweep after another, at the given times, each over what the query returns. */
  function Sweeps(cfg: TrackerConfig, l: Ledger, sweeps: seq<(seq<nat>, int)>): Ledger
    decreases |sweeps|
  {
    if |sweeps| == 0 then l else Sweeps(cfg, Sweep(cfg, l, sweeps[0].0, sweeps[0].1).0, sweeps[1..])
  }

  /**
   * Starvation: a blocked row at the head of the query ends every sweep before anything is done. Until
   * something else changes the ledger no other row is retried, settled or even deferred, however many
   * sweeps come and however long the other rows have been due.
   */
  lemma {:induction false} HeadStarves(cfg: TrackerConfig, l: Ledger, limit: nat, i: nat, sweeps: seq<(seq<nat>, int)>)
    requires LedgerOk(cfg, l) && limit > 0 && i < |l.unmatched| && Blocked(l, l.unmatched[i].payload)
    requires forall k :: 0 <= k < |sweeps| ==> PendingQuery(l.unmatched, limit, sweeps[k].0) && Heads(l.unmatched, i, sweeps[k].1)
    ensures Sweeps(cfg, l, sweeps) == l
    ensures forall k :: 0 <= k < |sweeps| ==> Sweep(cfg, l, sweeps[k].0, sweeps[k].1) == (l, false)
    decreases |sweeps|
  {
    hide LedgerOk, Blocked, Retry, PendingQuery, Heads;
    if |sweeps| > 0 {
      var (picked, now) := sweeps[0];
      assert PendingQuery(l.unmatched, limit, picked) && Heads(l.unmatched, i, now);
      HeadIsFirst(l.unmatched, limit, picked, i, now);
      HeadDue(l.unmatched, i, now);
      RetryProgress(cfg, l, i, now);
      HeadStarves(cfg, l, limit, i, sweeps[1..]);
      forall k | 0 <= k < |sweeps| ensures Sweep(cfg, l, sweeps[k].0, sweeps[k].1) == (l, false) {
        if k > 0 {
          assert sweeps[k] == sweeps[1..][k - 1];
        }
      }
    }
  }

  lemma HeadDue(rows: seq<UnmatchedRow>, i: nat, now: int)
    requires Heads(rows, i, now)
    ensures i < |rows| && rows[i].status.Pending? && Due(rows[i], now)
  {
  }

  /** A sweep with room for one row reaches a due row whenever there is one. */
  lemma SweepFindsDue(rows: seq<UnmatchedRow>, limit: nat, picked: seq<nat>, i: nat, now: int)
    requires PendingQuery(rows, limit, picked) && limit > 0
    requires i < |rows| && rows[i].status.Pending? && Due(rows[i], now)
    requires forall k :: 0 <= k < |rows| && rows[k].status.Pending? ==> rows[k].nextRetryAt.Some?
    ensures exists k :: 0 <= k < |picked| && Due(rows[picked[k]], now)
  {
    if i in picked {
      var k :| 0 <= k < |picked| && picked[k] == i;
      assert Due(rows[picked[k]], now);
    } else {
      assert Earlier(rows[picked[0]], rows[i]);
      assert Due(rows[picked[0]], now);
    }
  }

  lemma {:induction false} RunSnoc(cfg: TrackerConfig, l: Ledger, events: seq<Event>, e: Event)
    ensures Run(cfg, l, events + [e]) == Apply(cfg, Run(cfg, l, events), e)
    decreases |events|
  {
    hide Apply;
    if |events| == 0 {
      assert (events + [e])[1..] == [];
    } else {
      assert (events + [e])[1..] == events[1..] + [e] && (events + [e])[0] == events[0];
      RunSnoc(cfg, Apply(cfg, l, events[0]), events[1..], e);
    }
  }

  datatype SweepReport = SweepReport(attempted: nat, resolved: nat, deadLettered: nat) | SweepThrew

  class ExecutionPersistenceService {
    const cfg: TrackerConfig
    var orders: map<int, Order>
    var fills: seq<FillRow>
    var outbox: seq<OutboxRow>
    var books: map<BookScope, Book>
    var unmatched: seq<UnmatchedRow>

    function State(): Ledger
      reads this
    {
      Ledger(orders, fills, outbox, books, unmatched)
    }

    constructor (cfg: TrackerConfig)
      ensures this.cfg == cfg && State() == Ledger(map[], [], [], map[], [])
      ensures LedgerOk(cfg, State())
    {
      this.cfg := cfg;
      orders, fills, outbox, books, unmatched := map[], [], [], map[], [];
    }

    method SaveUnmatchedFill(p: Payload, reason: Anomaly, retryable: bool, orderId: Option<int>, now: int)
      modifies this`unmatched
      ensures unmatched == SaveUnmatched(cfg, old(unmatched), p, reason, retryable, orderId, now)
    {
      hide BuildExternalFillId;
      var existing := UnmatchedIndex(unmatched, IdOf(p));
      if existing.None? {
        var retryAt := if retryable then Some(now + cfg.unmatchedRetryDelayMs) else None;
        var row := UnmatchedRow(IdOf(p), p, reason, if retryable then Pending else DeadLetter, 0, retryAt, orderId, Some(reason));
        unmatched := unmatched + [row];
      }
    }

    /** One transaction: every table is written, or none is when a unique violation rolls it back. */
    method IngestExecutionFill(p: Payload, storeUnmatched: bool, now: int) returns (outcome: Outcome)
      modifies this
      ensures State() == Ingest(cfg, old(State()), p, storeUnmatched, now).0
      ensures outcome == Ingest(cfg, old(State()), p, storeUnmatched, now).1
    {
      hide BuildFillAggregate, BuildExternalFillId, ApplyPositionBookFill, SaveUnmatched, HasFillId, HasOutboxKey, FindOrder;
      var id := IdOf(p);
      var found := FindOrder(orders, p);
      if found.None? {
        if storeUnmatched {
          SaveUnmatchedFill(p, OrderNotFound, true, None, now);
        }
        return Completed(false, None, Some(OrderNotFound), id);
      }
      var oid := found.value;
      var order := orders[oid];
      if order.orderType != p.side {
        if storeUnmatched {
          SaveUnmatchedFill(p, SideMismatch, false, Some(oid), now);
        }
        return Completed(false, Some(oid), Some(SideMismatch), id);
      }
      var built := BuildFillAggregate(order, p);
      if built.None? {
        if storeUnmatched {
          SaveUnmatchedFill(p, InvalidFill, false, Some(oid), now);
        }
        return Completed(false, Some(oid), Some(InvalidFill), id);
      }
      var aggregate := built.value;
      if aggregate.appliedQty <= 0 {
        return Completed(false, Some(oid), Some(aggregate.anomaly.GetOr(FillClamped)), id);
      }
      if HasFillId(fills, id) {
        return Completed(false, Some(oid), None, id);
      }
      var before := (orders, fills, outbox);
      fills := fills + [NewFill(oid, order, p, aggregate)];
      orders := orders[oid := aggregate.order];
      outbox := InsertOutbox(outbox, NewOutbox(p, aggregate));
      var booked := ApplyPositionBookFill(books, order, Trade(p.side, aggregate.appliedQty, aggregate.appliedAmount));
      match booked
      case Updated(updated) =>
        books := updated;
        return Completed(true, Some(oid), aggregate.anomaly, id);
      case MissingSell =>
        SaveUnmatchedFill(p, PositionBookMissingSell, false, Some(oid), now);
        return Completed(true, Some(oid), Some(aggregate.anomaly.GetOr(PositionBookMissingSell)), id);
      case Conflict =>
        orders, fills, outbox := before.0, before.1, before.2;
        return Aborted;
    }

    /** Settles the row of a finished retry, found again by its id. */
    method SettleUnmatched(row: UnmatchedRow, outcome: Outcome, now: int)
      requires outcome.Completed?
      modifies this`unmatched
      ensures var i := UnmatchedIndex(old(unmatched), row.externalFillId);
              unmatched == if i.None? then old(unmatched) else old(unmatched)[i.value := RetriedRow(cfg, row, outcome, now)]
    {
      var i := UnmatchedIndex(unmatched, row.externalFillId);
      if i.Some? {
        unmatched := unmatched[i.value := RetriedRow(cfg, row, outcome, now)];
      }
    }

    /** One row of a sweep, worked from the snapshot the pending query read. */
    method RetryOne(row: UnmatchedRow, ghost i: nat, now: int) returns (outcome: Outcome)
      requires LedgerOk(cfg, State()) && i < |unmatched| && unmatched[i] == row && row.status.Pending?
      modifies this
      ensures State() == Retry(cfg, old(State()), i, now).0 && outcome == Retry(cfg, old(State()), i, now).1
      ensures outcome.Completed? ==> unmatched == old(unmatched)[i := RetriedRow(cfg, row, outcome, now)]
    {
      hide LedgerOk, Ingest, BuildExternalFillId;
      RetryProgress(cfg, State(), i, now);
      RetryIndex(cfg, State(), i, now);
      outcome := IngestExecutionFill(row.payload, false, now);
      if outcome.Completed? {
        SettleUnmatched(row, outcome, now);
      }
    }

    /**
     * One sweep over the rows the pending query returned. It works from the snapshot, which is sound
     * because no step of the sweep touches a row that is still ahead. Without an exception the result
     * is the retry of every picked row in order; a unique violation stops the sweep at its row.
     */
    method RetryUnmatchedFills(limit: nat, picked: seq<nat>, now: int) returns (report: SweepReport, done: nat)
      requires LedgerOk(cfg, State()) && PendingQuery(unmatched, limit, picked)
      modifies this
      ensures LedgerOk(cfg, State()) && SweptTo(cfg, old(State()), State(), picked, now, done)
      ensures (State(), report.SweepReport?) == Sweep(cfg, old(State()), picked, now)
      ensures report.SweepReport? ==>
                && done == |picked|
                && report.attempted == CountDue(old(unmatched), picked, now)
                && report.resolved == CountStatus(unmatched, picked, Resolved)
                && report.deadLettered == CountStatus(unmatched, picked, DeadLetter)
      ensures report.SweepThrew? ==> StoppedAt(State(), picked, now, done)
    {
      hide LedgerOk, Ingest, Retry, Run, BuildExternalFillId;
      hide CountDue, CountStatus, Sweep, SweptTo;
      NothingSwept(cfg, picked, now);
      var rows := Snapshot(unmatched, picked);
      var attempted, resolved, deadLettered := 0, 0, 0;
      done := 0;
      SweepStart(cfg, State(), picked, now);
      NoCountsAtStart(unmatched, now);
      assert picked[..0] == [] && picked[..|picked|] == picked;
      while done < |picked|
        invariant done <= |picked|
        invariant LedgerOk(cfg, State())
        invariant SweptTo(cfg, old(State()), State(), picked, now, done)
        invariant Ahead(unmatched, picked, rows, done)
        invariant Sweep(cfg, old(State()), picked, now) == Sweep(cfg, State(), picked[done..], now)
        invariant attempted == CountDue(old(unmatched), picked[..done], now)
        invariant resolved == CountStatus(unmatched, picked[..done], Resolved)
        invariant deadLettered == CountStatus(unmatched, picked[..done], DeadLetter)
      {
        var row := rows[done];
        SweepTurn(cfg, State(), picked, done, now);
        ghost var table := unmatched;
        SweepStep(cfg, old(State()), State(), picked, rows, now, done);
        CountsStep(old(unmatched), table, table, picked, done, now);
        if Due(row, now) {
          var outcome := RetryOne(row, picked[done], now);
          if outcome.Aborted? {
            return SweepThrew, done;
          }
          CountsStep(old(unmatched), table, unmatched, picked, done, now);
          if outcome.inserted || outcome.anomaly.None? {
            resolved := resolved + 1;
          } else if RetriedRow(cfg, row, outcome, now).status.DeadLetter? {
            deadLettered := deadLettered + 1;
          }
          attempted := attempted + 1;
        }
        done := done + 1;
      }
      report := SweepReport(attempted, resolved, deadLettered);
    }
  }

  /** The rows at the picked places, as the query read them. */
  function Snapshot(rows: seq<UnmatchedRow>, picked: seq<nat>): (snapshot: seq<UnmatchedRow>)
    requires forall k :: 0 <= k < |picked| ==> picked[k] < |rows|
    ensures |snapshot| == |picked| && forall k :: 0 <= k < |picked| ==> snapshot[k] == rows[picked[k]]
  {
    seq(|picked|, k requires 0 <= k < |picked| => rows[picked[k]])
  }

  /** The first `done` picked rows have been retried, in order, and nothing else has happened. */
  ghost predicate SweptTo(cfg: TrackerConfig, before: Ledger, after: Ledger, picked: seq<nat>, now: int, done: nat) {
    done <= |picked| && after == Run(cfg, before, RetryEvents(picked, now)[..done])
  }

  /** The rows still ahead of the sweep are as the query read them. */
  ghost predicate Ahead(rows: seq<UnmatchedRow>, picked: seq<nat>, snapshot: seq<UnmatchedRow>, done: nat) {
    && |snapshot| == |picked|
    && (forall j, k :: 0 <= j < k < |picked| ==> picked[j] != picked[k])
    && forall k :: done <= k < |picked| ==>
         picked[k] < |rows| && rows[picked[k]] == snapshot[k] && snapshot[k].status.Pending?
  }

  ghost predicate StoppedAt(l: Ledger, picked: seq<nat>, now: int, done: nat) {
    && done < |picked| && picked[done] < |l.unmatched|
    && Due(l.unmatched[picked[done]], now) && Blocked(l, l.unmatched[picked[done]].payload)
  }

  function CountStatus(rows: seq<UnmatchedRow>, picked: seq<nat>, status: UnmatchedStatus): nat {
    if picked == [] then 0
    else
      var i := picked[|picked| - 1];
      CountStatus(rows, picked[..|picked| - 1], status) + if i < |rows| && rows[i].status == status then 1 else 0
  }

  function CountDue(rows: seq<UnmatchedRow>, picked: seq<nat>, now: int): nat {
    if picked == [] then 0
    else
      var i := picked[|picked| - 1];
      CountDue(rows, picked[..|picked| - 1], now) + if i < |rows| && Due(rows[i], now) then 1 else 0
  }

  lemma {:induction false} CountElsewhere(rows: seq<UnmatchedRow>, i: nat, row: UnmatchedRow, picked: seq<nat>, status: UnmatchedStatus)
    requires i < |rows| && i !in picked
    ensures CountStatus(rows[i := row], picked, status) == CountStatus(rows, picked, status)
  {
    if picked != [] {
      CountElsewhere(rows, i, row, picked[..|picked| - 1], status);
    }
  }

  /** Writing the row of the current turn leaves the counts of the earlier turns alone. */
  lemma CountsStep(snapshot: seq<UnmatchedRow>, rows: seq<UnmatchedRow>, next: seq<UnmatchedRow>, picked: seq<nat>, done: nat, now: int)
    requires done < |picked| && picked[done] < |rows| && picked[done] < |snapshot|
    requires picked[done] !in picked[..done]
    requires |next| == |rows| && next == rows[picked[done] := next[picked[done]]]
    ensures CountDue(snapshot, picked[..done + 1], now)
         == CountDue(snapshot, picked[..done], now) + if Due(snapshot[picked[done]], now) then 1 else 0
    ensures forall s :: (
              CountStatus(next, picked[..done + 1], s)
              == CountStatus(rows, picked[..done], s) + if next[picked[done]].status == s then 1 else 0)
  {
    assert picked[..done + 1][..done] == picked[..done];
    forall s | true ensures CountStatus(next, picked[..done], s) == CountStatus(rows, picked[..done], s) {
      CountElsewhere(rows, picked[done], next[picked[done]], picked[..done], s);
    }
  }

  lemma {:induction false} NoCountsAtStart(rows: seq<UnmatchedRow>, now: int)
    ensures CountDue(rows, [], now) == 0 && forall s :: CountStatus(rows, [], s) == 0
  {
  }

  lemma SweepStart(cfg: TrackerConfig, l: Ledger, picked: seq<nat>, now: int)
    ensures SweptTo(cfg, l, l, picked, now, 0)
  {
    assert RetryEvents(picked, now)[..0] == [];
  }

  /** What one turn of the sweep's loop establishes, whichever way it goes. */
  lemma SweepStep(cfg: TrackerConfig, before: Ledger, l: Ledger, picked: seq<nat>, snapshot: seq<UnmatchedRow>, now: int, done: nat)
    requires done < |picked| && SweptTo(cfg, before, l, picked, now, done) && LedgerOk(cfg, l)
    requires Ahead(l.unmatched, picked, snapshot, done)
    ensures !Due(snapshot[done], now) ==> SweptTo(cfg, before, l, picked, now, done + 1)
    ensures Due(snapshot[done], now) ==>
              var (next, outcome) := Retry(cfg, l, picked[done], now);
              && LedgerOk(cfg, next)
              && (outcome.Aborted? ==> next == l && StoppedAt(next, picked, now, done))
              && (outcome.Completed? ==>
                    SweptTo(cfg, before, next, picked, now, done + 1) && Ahead(next.unmatched, picked, snapshot, done + 1))
  {
    hide LedgerOk, Ingest, Retry, Run, BuildExternalFillId, Blocked;
    var events := RetryEvents(picked, now);
    RunSnoc(cfg, before, events[..done], events[done]);
    assert events[..done + 1] == events[..done] + [events[done]];
    if Due(snapshot[done], now) {
      RetryProgress(cfg, l, picked[done], now);
      RetryKeepsLedger(cfg, l, picked[done], now);
    }
  }

  /** During a retry the row is found again, at its own place. */
  lemma RetryIndex(cfg: TrackerConfig, l: Ledger, i: nat, now: int)
    requires LedgerOk(cfg, l) && i < |l.unmatched|
    ensures var rows := Ingest(cfg, l, l.unmatched[i].payload, false, now).0.unmatched;
            rows == l.unmatched && UnmatchedIndex(rows, l.unmatched[i].externalFillId) == Some(i)
  {
    hide Ingest, BuildExternalFillId, OrdersOk, FillsOk, BooksOk, OutboxOk;
    RetryKeepsRows(cfg, l, i, now);
  }
}
