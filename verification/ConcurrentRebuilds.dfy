/**
 * When the 1h and 1d objects are the batch derivation from the stored days, with day writers and rebuilds at
 * work together: what the write of a rebuild leaves, when it repairs, and when it sets an object back.
 */
module ConcurrentRebuilds {
  import opened Wrappers
  import opened IntSets
  import opened CandleRows
  import opened KrxCalendar
  import opened SessionRows
  import opened ChartArchive
  import opened ConcurrentArchive

  // ---------------------------------------------------------------- a rebuild among the writers

  /** The day still derives every row that what the rebuild read of it derives. */
  ghost predicate StillDerives(w: World, r: Rebuilding, day: int) {
    Within(Derived(ToMap(RowsAt(r.read, day)), GrainOf(r.p)), Derived(ToMap(RowsAt(w.archive.minutes, day)), GrainOf(r.p)))
  }

  /** Every row of `n` is a row of `m`. */
  ghost predicate Within(n: map<int, Row>, m: map<int, Row>) {
    n.Keys <= m.Keys && forall k :: k in n ==> n[k] == m[k]
  }

  lemma OverlayIsSame(m: map<int, Row>, n: map<int, Row>)
    ensures m + n == m <==> Within(n, m)
  {
    if Within(n, m) {
      Absorbed(m, n);
    } else {
      assert n.Keys <= (m + n).Keys;
      assert forall k :: k in n ==> (m + n)[k] == n[k];
    }
  }

  lemma Absorbed(m: map<int, Row>, n: map<int, Row>)
    requires Within(n, m)
    ensures m + n == m
  {
    assert (m + n).Keys == m.Keys;
    forall k | k in m ensures (m + n)[k] == m[k] {
      if k in n {
        assert n[k] == m[k];
      }
    }
  }

  lemma Covered(m: map<int, Row>, n: map<int, Row>)
    requires m.Keys <= n.Keys
    ensures m + n == n
  {
  }

  /** The calendar reaches the latest day the rebuild listed. */
  predicate Passes(c: Calendar, r: Rebuilding)
    requires forall d: int :: d in r.days ==> d >= 0
  {
    r.days != {} ==> Reached(c, r.p, MaxOf(r.days))
  }

  /** A day after the write of a rebuild that passes: what was read of it is laid over what was merged of it. */
  lemma AfterRebuild(w: World, c: Calendar, id: nat, day: int)
    requires WorldOk(w, c) && CanWrite(w, id) && Passes(c, w.rebuilds[id])
    ensures var r, next := w.rebuilds[id], Rebuilt(w, c, id);
            var g := GrainOf(r.p);
            && next.archive.minutes == w.archive.minutes
            && Laid(g, MergesOf(next, r.p, day))
               == Laid(g, MergesOf(w, r.p, day)) + if day in r.days then Derived(ToMap(RowsAt(r.read, day)), g) else map[]
  {
    hide ToMap, Derived, Laid, GrainOf, MergesOf, Rebuilt, Relaid, Batch, Reached, ObjectsOk, StatusOk, MergedOk, RebuildOk, AllObjectsOk;
    var r, next, g := w.rebuilds[id], Rebuilt(w, c, id), GrainOf(w.rebuilds[id].p);
    RebuildEffect(w, c, id);
    NothingMore(Laid(g, MergesOf(w, r.p, day)));
    if r.days != {} && Batch(r.read, r.days) != [] {
      RelaidOf(w, r, next);
      LaidMore(g, MergesOf(w, r.p, day), RowsAt(r.read, day));
      assert MergesOf(w, r.p, day) + [] == MergesOf(w, r.p, day);
    } else {
      SameMergesOf(w, next, r.p, day);
      if day in r.days {
        EmptyRead(w, r, day);
      }
    }
  }

  lemma NothingMore(m: map<int, Row>)
    ensures m + map[] == m
  {
  }

  lemma ReadInBatch(w: World, r: Rebuilding, day: int, k: int)
    requires RebuildOk(w, r) && day in r.days && k in ToMap(RowsAt(r.read, day))
    ensures k in ToMap(Batch(r.read, r.days))
  {
    hide TradeDay, ToMap, Batch, PeriodStart, IsReady, Sorted;
    EmptyMap();
    BatchByBucket(r.read, r.days);
    assert TradeDay(k) == day;
  }

  lemma EmptyRead(w: World, r: Rebuilding, day: int)
    requires RebuildOk(w, r) && Batch(r.read, r.days) == [] && day in r.days
    ensures Derived(ToMap(RowsAt(r.read, day)), GrainOf(r.p)) == map[]
  {
    hide ToMap, Batch, RebuildOk;
    EmptyMap();
    forall k ensures k !in ToMap(RowsAt(r.read, day)) {
      if k in ToMap(RowsAt(r.read, day)) {
        ReadInBatch(w, r, day, k);
      }
    }
    assert ToMap(RowsAt(r.read, day)) == map[];
    assert Groups(map[], GrainOf(r.p)) == {};
  }

  lemma ListedCounted(w: World, c: Calendar, r: Rebuilding, day: int)
    requires RebuildOk(w, r) && day in r.days && Passes(c, r)
    ensures day in CountedDays(w.archive, c, r.p, r.start)
  {
    hide PeriodStart, Reached, Fits, Sorted, IsReady, CountedDays;
    ReachedEarlier(c, r.p, day, MaxOf(r.days));
    CountedWhen(w.archive, c, r.p, day);
  }

  lemma SameCountedDays(a: Archive, b: Archive, c: Calendar, p: Period, start: int)
    requires b.minuteStatus == a.minuteStatus
    ensures CountedDays(a, c, p, start) == CountedDays(b, c, p, start)
  {
    hide PeriodStart, Reached;
    assert ReadyDays(a, p, start) == ReadyDays(b, p, start);
  }

  lemma RebuildKeeps(w: World, c: Calendar, id: nat)
    requires WorldOk(w, c) && CanWrite(w, id)
    ensures WorldOk(Rebuilt(w, c, id), c)
    ensures forall p: Period, start: int :: CountedDays(Rebuilt(w, c, id).archive, c, p, start) == CountedDays(w.archive, c, p, start)
  {
    hide DaysOk, AllObjectsOk, Rebuilt, CountedDays;
    RebuildKeepsDays(w, c, id);
    RebuildKeepsObjects(w, c, id);
    RebuildEffect(w, c, id);
    forall p: Period, start: int ensures CountedDays(Rebuilt(w, c, id).archive, c, p, start) == CountedDays(w.archive, c, p, start) {
      SameCountedDays(w.archive, Rebuilt(w, c, id).archive, c, p, start);
    }
  }

  lemma PassesWhen(w: World, c: Calendar, id: nat)
    requires WorldOk(w, c) && id in w.rebuilds
    ensures forall d: int :: d in w.rebuilds[id].days ==> d >= 0
    ensures RebuildOk(w, w.rebuilds[id])
  {
    hide ObjectsOk, StatusOk, MergedOk, AllObjectsOk;
  }

  /** Each day of the period after the rebuild's write, from what held before. */
  lemma UpToDateAfter(w: World, c: Calendar, id: nat, day: int)
    requires WorldOk(w, c) && CanWrite(w, id) && Passes(c, w.rebuilds[id])
    ensures var r, next := w.rebuilds[id], Rebuilt(w, c, id);
            && (day !in r.days ==> (UpToDate(next, r.p, day) <==> UpToDate(w, r.p, day)))
            && (day in r.days && UpToDate(w, r.p, day) ==> (UpToDate(next, r.p, day) <==> StillDerives(w, r, day)))
            && (day in r.days && RowsAt(r.read, day) == RowsAt(w.archive.minutes, day) ==> UpToDate(next, r.p, day))
  {
    hide ToMap, Derived, Laid, GrainOf, MergesOf, Rebuilt, Reached, DaysOk, AllObjectsOk, Within;
    var r, g := w.rebuilds[id], GrainOf(w.rebuilds[id].p);
    AfterRebuild(w, c, id, day);
    var laid, own := Laid(g, MergesOf(w, r.p, day)), Derived(ToMap(RowsAt(w.archive.minutes, day)), g);
    NothingMore(laid);
    OverlayIsSame(own, Derived(ToMap(RowsAt(r.read, day)), g));
    MergedKeys(w, c, r.p, day);
    Covered(laid, own);
  }

  /**
   * A rebuild reads the day objects without their locks and merges what it read later. In every run, an
   * object that was the batch derivation before the write of a rebuild which the calendar lets pass is so
   * after it exactly when no day it read has since been rewritten with another row in some coarser bucket.
   */
  lemma RebuildExactlyWhen(c: Calendar, steps: seq<Step>, id: nat)
    requires forall s :: s in steps ==> OwnDay(c, s)
    ensures var w := RunSteps(START, c, steps);
            CanWrite(w, id) ==>
              var r := w.rebuilds[id];
              && (forall d: int :: d in r.days ==> d >= 0)
              && (Passes(c, r) && Agrees(w.archive, c, r.p, r.start) ==>
                    (Agrees(Next(w, c, WriteRebuilt(id)).archive, c, r.p, r.start)
                     <==> forall d: int :: d in r.days ==> StillDerives(w, r, d)))
  {
    hide RunSteps, OwnDay, WorldOk, UpToDate, StillDerives, CountedDays, Agrees, Rebuilt, Passes;
    Reachable(c, steps);
    var w := RunSteps(START, c, steps);
    if CanWrite(w, id) {
      PassesWhen(w, c, id);
      if Passes(c, w.rebuilds[id]) && Agrees(w.archive, c, w.rebuilds[id].p, w.rebuilds[id].start) {
        RebuildAgrees(w, c, id);
      }
    }
  }

  lemma RebuildAgrees(w: World, c: Calendar, id: nat)
    requires WorldOk(w, c) && CanWrite(w, id) && Passes(c, w.rebuilds[id])
    requires Agrees(w.archive, c, w.rebuilds[id].p, w.rebuilds[id].start)
    ensures var r := w.rebuilds[id];
            Agrees(Rebuilt(w, c, id).archive, c, r.p, r.start) <==> forall d: int :: d in r.days ==> StillDerives(w, r, d)
  {
    hide WorldOk, UpToDate, StillDerives, CountedDays, Agrees, Rebuilt, Passes;
    var r, next := w.rebuilds[id], Rebuilt(w, c, id);
    PassesWhen(w, c, id);
    RebuildKeeps(w, c, id);
    forall d: int | d in CountedDays(w.archive, c, r.p, r.start)
      ensures UpToDate(next, r.p, d) <==> (d in r.days ==> StillDerives(w, r, d))
    {
      UpToDateWhenAgrees(w, c, r.p, r.start, d);
      UpToDateAfter(w, c, id, d);
    }
    forall d: int | d in r.days ensures d in CountedDays(w.archive, c, r.p, r.start) {
      ListedCounted(w, c, r, d);
    }
    if forall d: int :: d in r.days ==> StillDerives(w, r, d) {
      AgreesWhenUpToDate(next, c, r.p, r.start);
    } else if Agrees(next.archive, c, r.p, r.start) {
      forall d: int | d in r.days ensures UpToDate(next, r.p, d) {
        UpToDateWhenAgrees(next, c, r.p, r.start, d);
      }
    }
  }

  /**
   * And a rebuild repairs: when it passes, listed every READY day of the period and none has been written
   * since it was read, the object is the batch derivation, whatever dead writers and earlier rebuilds left.
   */
  lemma RebuildRepairs(c: Calendar, steps: seq<Step>, id: nat)
    requires forall s :: s in steps ==> OwnDay(c, s)
    ensures var w := RunSteps(START, c, steps);
            CanWrite(w, id) ==>
              var r := w.rebuilds[id];
              && (forall d: int :: d in r.days ==> d >= 0)
              && (Passes(c, r) && r.days == ReadyDays(w.archive, r.p, r.start)
                  && (forall d: int :: d in r.days ==> RowsAt(r.read, d) == RowsAt(w.archive.minutes, d)) ==>
                    Agrees(Next(w, c, WriteRebuilt(id)).archive, c, r.p, r.start))
  {
    hide RunSteps, OwnDay, WorldOk, Agrees, Rebuilt, Passes, ReadyDays;
    Reachable(c, steps);
    var w := RunSteps(START, c, steps);
    if CanWrite(w, id) {
      PassesWhen(w, c, id);
      var r := w.rebuilds[id];
      if Passes(c, r) && r.days == ReadyDays(w.archive, r.p, r.start)
         && forall d: int :: d in r.days ==> RowsAt(r.read, d) == RowsAt(w.archive.minutes, d) {
        Repaired(w, c, id);
      }
    }
  }

  lemma Repaired(w: World, c: Calendar, id: nat)
    requires WorldOk(w, c) && CanWrite(w, id) && Passes(c, w.rebuilds[id])
    requires var r := w.rebuilds[id];
             r.days == ReadyDays(w.archive, r.p, r.start) && forall d: int :: d in r.days ==> RowsAt(r.read, d) == RowsAt(w.archive.minutes, d)
    ensures Agrees(Rebuilt(w, c, id).archive, c, w.rebuilds[id].p, w.rebuilds[id].start)
  {
    hide WorldOk, UpToDate, StillDerives, Agrees, Rebuilt, Passes, Reached, PeriodStart;
    var r, next := w.rebuilds[id], Rebuilt(w, c, id);
    RebuildKeeps(w, c, id);
    forall d: int | d in CountedDays(next.archive, c, r.p, r.start) ensures UpToDate(next, r.p, d) {
      UpToDateAfter(w, c, id, d);
    }
    AgreesWhenUpToDate(next, c, r.p, r.start);
  }

  // ---------------------------------------------------------------- runs whose rebuilds come in time

  /** A merge of the day into the aggregate is still to come, or was left undone. */
  predicate Owing(w: World, p: Period, day: int) {
    (p, day) in w.abandoned || (day in w.pending && (p == Year || w.pending[day] == Month))
  }

  /** A READY day that owes nothing is up to date. */
  ghost predicate Settled(w: World, c: Calendar, p: Period, day: nat) {
    IsReady(w.archive, day) && RowsAt(w.archive.minutes, day) != [] && Reached(c, p, day) && !Owing(w, p, day) ==> UpToDate(w, p, day)
  }

  ghost predicate AllSettled(w: World, c: Calendar) { forall p: Period, d: nat :: Settled(w, c, p, d) }

  /** No day the rebuild read has since been rewritten with another row in some coarser bucket. */
  ghost predicate InTime(w: World, s: Step) {
    s.WriteRebuilt? && CanWrite(w, s.id) ==> forall d: int :: d in w.rebuilds[s.id].days ==> StillDerives(w, w.rebuilds[s.id], d)
  }

  ghost predicate RebuildsInTime(w: World, c: Calendar, steps: seq<Step>)
    decreases |steps|
  {
    |steps| == 0 || (InTime(w, steps[0]) && RebuildsInTime(Next(w, c, steps[0]), c, steps[1..]))
  }

  lemma BeginOwes(w: World, c: Calendar, day: nat, incoming: seq<Row>, requireReady: bool)
    requires day !in w.pending && StatusOk(w.archive, c) && Trades(c, day)
    ensures var next := Begin(w, c, day, incoming, requireReady);
            && next.merges == w.merges
            && (forall p: Period, d: int :: d != day ==> (Owing(next, p, d) <==> Owing(w, p, d)))
            && (next == w || !IsReady(next.archive, day) || RowsAt(next.archive.minutes, day) == []
                || (Owing(next, Month, day) && Owing(next, Year, day)))
  {
    hide Merge, SessionCloseMinute;
  }

  lemma BeginSettles(w: World, c: Calendar, day: nat, incoming: seq<Row>, requireReady: bool)
    requires WorldOk(w, c) && AllSettled(w, c) && day !in w.pending
    requires Trades(c, day) && forall r :: r in incoming ==> TradeDay(r.bucket) == day
    ensures AllSettled(Begin(w, c, day, incoming, requireReady), c)
  {
    hide ToMap, TradeDay, Begin, ObjectsOk, StatusOk, MergedOk, RebuildOk, IsReady, Grows, AllObjectsOk, Owing, Reached, Laid, Derived, Merge;
    var next := Begin(w, c, day, incoming, requireReady);
    BeginGrows(w, c, day, incoming, requireReady);
    BeginOwes(w, c, day, incoming, requireReady);
    forall p: Period, d: nat ensures Settled(next, c, p, d) {
      assert Settled(w, c, p, d);
      SameMergesOf(w, next, p, d);
    }
  }

  lemma MergeSettles(w: World, c: Calendar, day: nat)
    requires WorldOk(w, c) && AllSettled(w, c) && day in w.pending
    ensures AllSettled(MergeDay(w, c, day), c)
  {
    hide ToMap, WritePeriod, Reached, PeriodStart, DaysOk, AllObjectsOk, IsReady, Laid, Derived, UpToDate, MaxTradeDay, Fits, ObjectOk, OfDay;
    var next, p := MergeDay(w, c, day), w.pending[day];
    PendingRows(w, c, day);
    OneObject(w, p, PeriodStart(p, day));
    WriteEffect(w, c, p, day, RowsAt(w.archive.minutes, day));
    YearReachesMonth(c, day);
    SameReady(w.archive, next.archive);
    if Reached(c, p, day) {
      MergedUpToDate(w, next, c, p, day);
    }
    forall q: Period, d: nat ensures Settled(next, c, q, d) {
      assert Settled(w, c, q, d);
      if q != p || d != day || !Reached(c, p, day) {
        SameUpToDate(w, next, q, d);
      }
    }
  }

  lemma SameUpToDate(w: World, next: World, p: Period, day: int)
    requires next.archive.minutes == w.archive.minutes && MergesOf(next, p, day) == MergesOf(w, p, day)
    ensures UpToDate(next, p, day) <==> UpToDate(w, p, day)
  {
    hide Laid, ToMap, Derived;
  }

  lemma MergedUpToDate(w: World, next: World, c: Calendar, p: Period, day: int)
    requires DaysOk(w, c) && next.archive.minutes == w.archive.minutes
    requires MergesOf(next, p, day) == MergesOf(w, p, day) + [RowsAt(w.archive.minutes, day)]
    ensures UpToDate(next, p, day)
  {
    hide ToMap, Derived, Laid, GrainOf, MergesOf, DaysOk;
    LaidMore(GrainOf(p), MergesOf(w, p, day), RowsAt(w.archive.minutes, day));
    MergedKeys(w, c, p, day);
    Covered(Laid(GrainOf(p), MergesOf(w, p, day)), Derived(ToMap(RowsAt(w.archive.minutes, day)), GrainOf(p)));
  }

  lemma RebuildSettles(w: World, c: Calendar, id: nat)
    requires WorldOk(w, c) && AllSettled(w, c) && CanWrite(w, id) && InTime(w, WriteRebuilt(id))
    ensures AllSettled(Rebuilt(w, c, id), c)
  {
    hide WorldOk, Reached, UpToDate, StillDerives, Owing, IsReady, Batch, Passes, Rebuilt;
    var r, next := w.rebuilds[id], Rebuilt(w, c, id);
    PassesWhen(w, c, id);
    forall p: Period, d: nat ensures Settled(next, c, p, d) {
      assert Settled(w, c, p, d);
      RebuiltSettled(w, c, id, p, d);
    }
  }

  lemma RebuiltSettled(w: World, c: Calendar, id: nat, p: Period, d: nat)
    requires WorldOk(w, c) && Settled(w, c, p, d) && CanWrite(w, id) && InTime(w, WriteRebuilt(id))
    ensures Settled(Rebuilt(w, c, id), c, p, d)
  {
    hide WorldOk, UpToDate, StillDerives, Rebuilt, PeriodStart, Merge, DeriveSeq, Relaid;
    var r, next := w.rebuilds[id], Rebuilt(w, c, id);
    PassesWhen(w, c, id);
    RebuildEffect(w, c, id);
    SameReady(w.archive, next.archive);
    RebuildOwes(w, c, id, p, d);
    if Passes(c, r) && p == r.p {
      UpToDateAfter(w, c, id, d);
    } else {
      OtherMerges(w, c, id, p, d);
      SameUpToDate(w, next, p, d);
    }
  }

  /** A rebuild ends what is owed only by days that it read as they are stored, and only when it passes. */
  lemma RebuildOwes(w: World, c: Calendar, id: nat, p: Period, d: int)
    requires WorldOk(w, c) && CanWrite(w, id)
    ensures (forall e: int :: e in w.rebuilds[id].days ==> e >= 0)
    ensures var r, next := w.rebuilds[id], Rebuilt(w, c, id);
            Owing(w, p, d) && !Owing(next, p, d) ==>
              p == r.p && d in r.days && Passes(c, r) && RowsAt(r.read, d) == RowsAt(w.archive.minutes, d)
  {
    hide Batch, Rebuilt, Reached, Merge, DeriveSeq, Relaid, WorldOk;
    PassesWhen(w, c, id);
    RebuildEffect(w, c, id);
  }

  lemma OtherMerges(w: World, c: Calendar, id: nat, p: Period, d: int)
    requires WorldOk(w, c) && CanWrite(w, id)
    requires forall e: int :: e in w.rebuilds[id].days ==> e >= 0
    requires p != w.rebuilds[id].p || !Passes(c, w.rebuilds[id])
    ensures MergesOf(Rebuilt(w, c, id), p, d) == MergesOf(w, p, d)
  {
    hide WorldOk, Rebuilt, MergesOf, Relaid, Batch, Reached, Merge, DeriveSeq;
    var r, next := w.rebuilds[id], Rebuilt(w, c, id);
    RebuildEffect(w, c, id);
    if next.merges == Relaid(w, r) && p != r.p {
      RelaidOf(w, r, next);
      assert MergesOf(w, p, d) + [] == MergesOf(w, p, d);
    } else {
      SameMergesOf(w, next, p, d);
    }
  }

  lemma NextSettles(w: World, c: Calendar, s: Step)
    requires WorldOk(w, c) && AllSettled(w, c) && OwnDay(c, s) && InTime(w, s)
    ensures AllSettled(Next(w, c, s), c)
  {
    hide WorldOk, Begin, MergeDay, Rebuilt, TradeDay, Trades, UpToDate, StillDerives, Reached, IsReady;
    match s
    case BeginDay(day, incoming, requireReady) =>
      if day !in w.pending {
        BeginSettles(w, c, day, incoming, requireReady);
      }
    case MergeNext(day) =>
      if day in w.pending {
        MergeSettles(w, c, day);
      }
    case WriteRebuilt(id) =>
      if CanWrite(w, id) {
        RebuildSettles(w, c, id);
      }
    case _ =>
      forall p: Period, d: nat ensures Settled(Next(w, c, s), c, p, d) {
        assert Settled(w, c, p, d);
        SameUpToDate(w, Next(w, c, s), p, d);
      }
  }

  lemma {:induction false} RunSettles(w: World, c: Calendar, steps: seq<Step>)
    requires WorldOk(w, c) && AllSettled(w, c) && (forall s :: s in steps ==> OwnDay(c, s)) && RebuildsInTime(w, c, steps)
    ensures AllSettled(RunSteps(w, c, steps), c)
    decreases |steps|
  {
    hide WorldOk, AllSettled, Next, OwnDay, InTime;
    if |steps| > 0 {
      NextKeeps(w, c, steps[0]);
      NextSettles(w, c, steps[0]);
      RunSettles(Next(w, c, steps[0]), c, steps[1..]);
    }
  }

  /**
   * In a run whose rebuilds come in time, whenever no READY day of the period is between its own write and
   * the aggregate, nor was left there by a writer that died and not been rebuilt, the object is the batch
   * derivation from the stored rows, whatever the order in which the days were written and merged.
   */
  lemma SettledIsBatch(c: Calendar, steps: seq<Step>, p: Period, start: int)
    requires (forall s :: s in steps ==> OwnDay(c, s)) && RebuildsInTime(START, c, steps)
    ensures var w := RunSteps(START, c, steps);
            (forall d: int :: d in ReadyDays(w.archive, p, start) ==> !Owing(w, p, d)) ==>
              RowsAt(w.archive.derived, (p, start)) == BatchDerivation(w.archive, c, p, start)
  {
    hide RunSteps, OwnDay, BatchDerivation, WorldOk, Owing, UpToDate, Reached, PeriodStart, RebuildsInTime;
    Reachable(c, steps);
    StartInv(c);
    StartSettled(c);
    RunSettles(START, c, steps);
    var w := RunSteps(START, c, steps);
    if forall d: int :: d in ReadyDays(w.archive, p, start) ==> !Owing(w, p, d) {
      forall d: int | d in CountedDays(w.archive, c, p, start) ensures UpToDate(w, p, d) {
        assert Settled(w, c, p, d);
        if RowsAt(w.archive.minutes, d) == [] {
          EmptyUpToDate(w, c, p, d);
        }
      }
      AgreesWhenUpToDate(w, c, p, start);
    }
  }

  lemma StartSettled(c: Calendar)
    ensures AllSettled(START, c)
  {
    hide Reached;
  }

  lemma EmptyUpToDate(w: World, c: Calendar, p: Period, day: int)
    requires WorldOk(w, c) && RowsAt(w.archive.minutes, day) == []
    ensures UpToDate(w, p, day)
  {
    hide DaysOk, AllObjectsOk, MergesOf, Laid;
    EmptyMap();
    MergedKeys(w, c, p, day);
    assert Groups(map[], GrainOf(p)) == {};
    assert Laid(GrainOf(p), MergesOf(w, p, day)) == map[];
  }

  // ---------------------------------------------------------------- runs without interruption, and one with

  /** A writer that is not interrupted does what a write of the day does in the sequential archive. */
  lemma UninterruptedIsWriteDay(w: World, c: Calendar, day: nat, incoming: seq<Row>, requireReady: bool)
    requires day !in w.pending
    ensures RunSteps(w, c, [BeginDay(day, incoming, requireReady), MergeNext(day), MergeNext(day)]).archive
            == WriteDay(w.archive, c, day, incoming, requireReady)
  {
    hide Merge, WritePeriod, RunSteps;
    var began := Next(w, c, BeginDay(day, incoming, requireReady));
    if day in began.pending {
      WriteKeepsDays(began.archive, c, Month, day, RowsAt(began.archive.minutes, day));
    }
    RunThree(w, c, BeginDay(day, incoming, requireReady), MergeNext(day), MergeNext(day));
  }

  lemma RunThree(w: World, c: Calendar, x: Step, y: Step, z: Step)
    ensures RunSteps(w, c, [x, y, z]) == Next(Next(Next(w, c, x), c, y), c, z)
  {
    hide Next;
    var w1 := Next(w, c, x);
    var w2 := Next(w1, c, y);
    assert [x, y, z][1..] == [y, z] && [y, z][1..] == [z] && [z][1..] == [];
    assert RunSteps(w2, c, [z]) == RunSteps(Next(w2, c, z), c, []);
    assert RunSteps(w1, c, [y, z]) == RunSteps(w2, c, [z]);
  }

  lemma {:induction false} RunMore(w: World, c: Calendar, some: seq<Step>, more: seq<Step>)
    ensures RunSteps(w, c, some + more) == RunSteps(RunSteps(w, c, some), c, more)
    decreases |some|
  {
    hide Next;
    if |some| == 0 {
      assert some + more == more;
    } else {
      assert (some + more)[1..] == some[1..] + more;
      RunMore(Next(w, c, some[0]), c, some[1..], more);
    }
  }

  lemma RunOne(w: World, c: Calendar, s: Step)
    ensures RunSteps(w, c, [s]) == Next(w, c, s)
  {
    hide Next;
    assert RunSteps(Next(w, c, s), c, [s][1..]) == Next(w, c, s);
  }

  /** The days read in ascending order. */
  function ReadAll(id: nat, days: set<nat>): seq<Step>
    decreases |days|
  {
    if days == {} then [] else ReadAll(id, days - {MaxOf(days)}) + [ReadDay(id, MaxOf(days))]
  }

  function ReadNow(a: Archive, days: set<nat>): map<int, seq<Row>> {
    map d: int | d in days :: RowsAt(a.minutes, d)
  }

  lemma {:induction false} ReadsAll(w: World, c: Calendar, id: nat, days: set<nat>)
    requires id in w.rebuilds && days <= w.rebuilds[id].days && w.rebuilds[id].read == map[]
    ensures RunSteps(w, c, ReadAll(id, days)) == w.(rebuilds := w.rebuilds[id := w.rebuilds[id].(read := ReadNow(w.archive, days))])
    decreases |days|
  {
    hide RunSteps;
    var r := w.rebuilds[id];
    if days == {} {
      assert ReadNow(w.archive, days) == map[];
      assert w.rebuilds[id := r] == w.rebuilds;
      NothingRuns(w, c);
    } else {
      var top: nat := MaxOf(days);
      var rest := days - {top};
      ReadsAll(w, c, id, rest);
      var before := w.(rebuilds := w.rebuilds[id := r.(read := ReadNow(w.archive, rest))]);
      RunMore(w, c, ReadAll(id, rest), [ReadDay(id, top)]);
      RunOne(before, c, ReadDay(id, top));
      assert ReadNow(w.archive, rest)[top := RowsAt(w.archive.minutes, top)] == ReadNow(w.archive, days);
    }
  }

  lemma NothingRuns(w: World, c: Calendar)
    ensures RunSteps(w, c, []) == w
  {
  }

  /** A rebuild of a period up to its write. */
  function Reading(id: nat, p: Period, start: int, days: set<nat>): seq<Step> {
    [ListDays(id, p, start)] + ReadAll(id, days)
  }

  lemma ReadingReads(w: World, c: Calendar, id: nat, p: Period, start: int)
    requires id !in w.rebuilds
    ensures var days: set<nat> := ReadyDays(w.archive, p, start);
            RunSteps(w, c, Reading(id, p, start, days))
            == w.(rebuilds := w.rebuilds[id := Rebuilding(p, start, days, ReadNow(w.archive, days))])
  {
    hide RunSteps, ReadyDays;
    var days: set<nat> := ReadyDays(w.archive, p, start);
    var listed := Next(w, c, ListDays(id, p, start));
    RunOne(w, c, ListDays(id, p, start));
    ReadsAll(listed, c, id, days);
    RunMore(w, c, [ListDays(id, p, start)], ReadAll(id, days));
    assert listed.rebuilds[id := Rebuilding(p, start, days, ReadNow(w.archive, days))]
           == w.rebuilds[id := Rebuilding(p, start, days, ReadNow(w.archive, days))];
  }

  /** A rebuild that is not interrupted does what a rebuild does in the sequential archive. */
  lemma UninterruptedIsRebuild(w: World, c: Calendar, id: nat, p: Period, start: int)
    requires id !in w.rebuilds
    ensures var days: set<nat> := ReadyDays(w.archive, p, start);
            RunSteps(w, c, Reading(id, p, start, days) + [WriteRebuilt(id)]).archive == Rebuild(w.archive, c, p, start).0
  {
    hide RunSteps, ReadyDays, WritePeriod, Batch, MaxTradeDay, Relaid, StillOwed, ReadNow;
    var days: set<nat> := ReadyDays(w.archive, p, start);
    var r := Rebuilding(p, start, days, ReadNow(w.archive, days));
    var read := w.(rebuilds := w.rebuilds[id := r]);
    ReadingReads(w, c, id, p, start);
    RunMore(w, c, Reading(id, p, start, days), [WriteRebuilt(id)]);
    RunOne(read, c, WriteRebuilt(id));
    ReadNowIs(w.archive, days);
    BatchSame(r.read, w.archive.minutes, days);
    WriteChangesOnly(w.archive, c, p, start);
  }

  lemma ReadNowIs(a: Archive, days: set<nat>)
    ensures ReadNow(a, days).Keys == days && forall d: int :: d in days ==> RowsAt(ReadNow(a, days), d) == RowsAt(a.minutes, d)
  {
  }

  lemma WriteChangesOnly(a: Archive, c: Calendar, p: Period, start: int)
    ensures var days := ReadyDays(a, p, start);
            var rows := Batch(a.minutes, days);
            days != {} ==>
              (!WritePeriod(a, c, p, MaxTradeDay(rows, MaxOf(days)), rows).1 ==> WritePeriod(a, c, p, MaxTradeDay(rows, MaxOf(days)), rows).0 == a)
  {
    hide ExpectedRowsInPeriod, PeriodStart, Merge, DeriveSeq, MaxTradeDay, Batch, ReadyDays;
  }

  lemma MergeRuns(w: World, c: Calendar, day: nat)
    requires WorldOk(w, c) && day in w.pending
    ensures var next := MergeDay(w, c, day);
            && next.archive.minutes == w.archive.minutes && next.archive.minuteStatus == w.archive.minuteStatus
            && next.rebuilds == w.rebuilds && next.abandoned == w.abandoned
            && next.pending == if w.pending[day] == Month && Reached(c, Month, day) then w.pending[day := Year] else w.pending - {day}
  {
    hide DaysOk, WritePeriod, PeriodStart, Reached, ObjectOk, MaxTradeDay, OfDay, Fits, IsReady, AllObjectsOk, Merge, DeriveSeq, MergesOf;
    var p := w.pending[day];
    PendingRows(w, c, day);
    OneObject(w, p, PeriodStart(p, day));
    WriteEffect(w, c, p, day, RowsAt(w.archive.minutes, day));
  }

  lemma BeginRuns(w: World, c: Calendar, day: nat, incoming: seq<Row>)
    requires ObjectsOk(w.archive) && StatusOk(w.archive, c) && day !in w.pending && IsReady(w.archive, day)
    requires Trades(c, day) && (forall r :: r in incoming ==> TradeDay(r.bucket) == day) && RowsAt(w.archive.minutes, day) != []
    ensures var next := Begin(w, c, day, incoming, false);
            && next.pending == w.pending[day := Month] && next.rebuilds == w.rebuilds
            && next.abandoned == w.abandoned - {(Month, day), (Year, day)}
            && next.archive.minutes == w.archive.minutes[day := Merge(RowsAt(w.archive.minutes, day), incoming)]
            && (forall d: int :: IsReady(next.archive, d) <==> IsReady(w.archive, d))
  {
    hide ToMap, TradeDay, Merge, Sorted, OfDay, SessionCloseMinute, StatusOk, ObjectsOk;
    var expected := SessionCloseMinute(c, day) - OPEN_MINUTE;
    MergedDay(w.archive, day, incoming);
    ReadyIsCounted(w.archive, c, day);
    assert ExpectedOneMinuteRows(c, day) == Some(expected);
  }

  /** One uninterrupted writer of a READY day. */
  function Writing(day: nat, incoming: seq<Row>): seq<Step> {
    [BeginDay(day, incoming, false), MergeNext(day), MergeNext(day)]
  }

  lemma WriterRuns(w: World, c: Calendar, day: nat, incoming: seq<Row>)
    requires WorldOk(w, c) && day !in w.pending && IsReady(w.archive, day) && Reached(c, Month, day)
    requires Trades(c, day) && (forall r :: r in incoming ==> TradeDay(r.bucket) == day) && RowsAt(w.archive.minutes, day) != []
    ensures var next := RunSteps(w, c, Writing(day, incoming));
            && WorldOk(next, c) && next.rebuilds == w.rebuilds
            && next.archive.minutes == w.archive.minutes[day := Merge(RowsAt(w.archive.minutes, day), incoming)]
            && (forall d: int :: IsReady(next.archive, d) <==> IsReady(w.archive, d))
            && !Owing(next, Month, day) && !Owing(next, Year, day)
  {
    hide RunSteps, WorldOk, TradeDay, Begin, MergeDay, Trades, Reached, IsReady, Merge, ObjectsOk, StatusOk;
    var began := Begin(w, c, day, incoming, false);
    WorldParts(w, c);
    BeginRuns(w, c, day, incoming);
    NextKeeps(w, c, BeginDay(day, incoming, false));
    var month := MergeDay(began, c, day);
    MergeRuns(began, c, day);
    NextKeeps(began, c, MergeNext(day));
    var year := MergeDay(month, c, day);
    MergeRuns(month, c, day);
    NextKeeps(month, c, MergeNext(day));
    SameReady(began.archive, month.archive);
    SameReady(month.archive, year.archive);
    RunThree(w, c, BeginDay(day, incoming, false), MergeNext(day), MergeNext(day));
  }

  /** A rebuild that read the day before it was rewritten, in a state where nothing is owed: what its write leaves. */
  lemma SetBack(w: World, c: Calendar, id: nat, day: nat, k: int)
    requires WorldOk(w, c) && CanWrite(w, id) && Passes(c, w.rebuilds[id]) && day in w.rebuilds[id].days
    requires var r := w.rebuilds[id];
             var read, now := Derived(ToMap(RowsAt(r.read, day)), GrainOf(r.p)), Derived(ToMap(RowsAt(w.archive.minutes, day)), GrainOf(r.p));
             k in read && (k !in now || now[k] != read[k])
    ensures var r, next := w.rebuilds[id], Rebuilt(w, c, id);
            var rows, read := RowsAt(next.archive.derived, (r.p, r.start)), Derived(ToMap(RowsAt(r.read, day)), GrainOf(r.p));
            !Agrees(next.archive, c, r.p, r.start) && k in ToMap(rows) && ToMap(rows)[k] == read[k]
  {
    hide WorldOk, Reached, UpToDate, Rebuilt, Agrees, ToMap, Derived, Laid, MergesOf, GrainOf, TradeDay, CountedDays, Passes;
    var r, next := w.rebuilds[id], Rebuilt(w, c, id);
    PassesWhen(w, c, id);
    RebuildKeeps(w, c, id);
    ListedCounted(w, c, r, day);
    AfterRebuild(w, c, id, day);
    ReadOfDay(w, r, day, k);
    ObjectAt(next, c, r.p, r.start, k);
    if Agrees(next.archive, c, r.p, r.start) {
      UpToDateWhenAgrees(next, c, r.p, r.start, day);
      SameWhenUpToDate(next, r.p, day);
    }
  }

  lemma ReadOfDay(w: World, r: Rebuilding, day: int, k: int)
    requires RebuildOk(w, r) && r.read.Keys == r.days && day in r.days && k in Derived(ToMap(RowsAt(r.read, day)), GrainOf(r.p))
    ensures TradeDay(k) == day
  {
    hide ToMap, TradeDay, GrainOf, Derived, PeriodStart, IsReady, Sorted;
    DerivedOfDay(day, RowsAt(r.read, day), GrainOf(r.p));
  }

  /**
   * The failing run, for every reachable state and every READY day of it that is rewritten with another row
   * in some coarser bucket between the reads and the write of a rebuild: the day's own writer has merged
   * everything, and still the period object holds the row of before, and is not the batch derivation.
   */
  lemma RebuildSetsBack(c: Calendar, steps: seq<Step>, id: nat, p: Period, day: nat, incoming: seq<Row>, k: int)
    requires (forall s :: s in steps ==> OwnDay(c, s)) && Trades(c, day) && forall r :: r in incoming ==> TradeDay(r.bucket) == day
    ensures var w := RunSteps(START, c, steps);
            var start := PeriodStart(p, day);
            var days: set<nat> := ReadyDays(w.archive, p, start);
            var before, now := RowsAt(w.archive.minutes, day), Merge(RowsAt(w.archive.minutes, day), incoming);
            var was, anew := Derived(ToMap(before), GrainOf(p)), Derived(ToMap(now), GrainOf(p));
            id !in w.rebuilds && day !in w.pending && IsReady(w.archive, day)
            && days != {} && Reached(c, p, MaxOf(days)) && k in was && (k !in anew || anew[k] != was[k]) ==>
              var last := RunSteps(w, c, (Reading(id, p, start, days) + Writing(day, incoming)) + [WriteRebuilt(id)]);
              var rows := RowsAt(last.archive.derived, (p, start));
              && RowsAt(last.archive.minutes, day) == now && IsReady(last.archive, day)
              && k in ToMap(rows) && ToMap(rows)[k] == was[k] && !Agrees(last.archive, c, p, start)
  {
    hide RunSteps, OwnDay, WorldOk, TradeDay, Trades, Reached, IsReady, Merge, Derived, ToMap, Agrees, ReadyDays, Reading, Writing, ReadNow, PeriodStart, GrainOf;
    Reachable(c, steps);
    var w := RunSteps(START, c, steps);
    var start := PeriodStart(p, day);
    var days: set<nat> := ReadyDays(w.archive, p, start);
    var was, anew := Derived(ToMap(RowsAt(w.archive.minutes, day)), GrainOf(p)), Derived(ToMap(Merge(RowsAt(w.archive.minutes, day), incoming)), GrainOf(p));
    if id !in w.rebuilds && day !in w.pending && IsReady(w.archive, day)
       && days != {} && Reached(c, p, MaxOf(days)) && k in was && (k !in anew || anew[k] != was[k]) {
      RebuildRace(w, c, id, p, day, incoming, k);
    }
  }

  lemma RebuildRace(w: World, c: Calendar, id: nat, p: Period, day: nat, incoming: seq<Row>, k: int)
    requires WorldOk(w, c) && Trades(c, day) && forall r :: r in incoming ==> TradeDay(r.bucket) == day
    requires id !in w.rebuilds && day !in w.pending && IsReady(w.archive, day)
    requires var days: set<nat> := ReadyDays(w.archive, p, PeriodStart(p, day)); days != {} && Reached(c, p, MaxOf(days))
    requires var was, anew := Derived(ToMap(RowsAt(w.archive.minutes, day)), GrainOf(p)), Derived(ToMap(Merge(RowsAt(w.archive.minutes, day), incoming)), GrainOf(p));
             k in was && (k !in anew || anew[k] != was[k])
    ensures var start := PeriodStart(p, day);
            var days: set<nat> := ReadyDays(w.archive, p, start);
            var last := RunSteps(w, c, (Reading(id, p, start, days) + Writing(day, incoming)) + [WriteRebuilt(id)]);
            var rows := RowsAt(last.archive.derived, (p, start));
            && RowsAt(last.archive.minutes, day) == Merge(RowsAt(w.archive.minutes, day), incoming) && IsReady(last.archive, day)
            && k in ToMap(rows) && ToMap(rows)[k] == Derived(ToMap(RowsAt(w.archive.minutes, day)), GrainOf(p))[k]
            && !Agrees(last.archive, c, p, start)
  {
    hide RunSteps, WorldOk, TradeDay, Trades, Reached, IsReady, Merge, Derived, ToMap, Agrees, ReadyDays, Reading, Writing, ReadNow, PeriodStart, GrainOf, Rebuilt;
    var start := PeriodStart(p, day);
    var days: set<nat> := ReadyDays(w.archive, p, start);
    var r := Rebuilding(p, start, days, ReadNow(w.archive, days));
    var read := RunSteps(w, c, Reading(id, p, start, days));
    var written := RunSteps(read, c, Writing(day, incoming));
    ReadingReads(w, c, id, p, start);
    ReadNowIs(w.archive, days);
    ReadingKeeps(w, c, id, p, start);
    DayIsListed(w.archive, c, p, day);
    HasRows(w.archive, day, GrainOf(p), k);
    WriterRuns(read, c, day, incoming);
    SetBack(written, c, id, day, k);
    RebuildEffect(written, c, id);
    SameReady(written.archive, Rebuilt(written, c, id).archive);
    RunMore(w, c, Reading(id, p, start, days), Writing(day, incoming));
    RunMore(w, c, Reading(id, p, start, days) + Writing(day, incoming), [WriteRebuilt(id)]);
    RunOne(written, c, WriteRebuilt(id));
  }

  lemma HasRows(a: Archive, day: int, g: Grain, k: int)
    requires k in Derived(ToMap(RowsAt(a.minutes, day)), g)
    ensures RowsAt(a.minutes, day) != []
  {
    EmptyMap();
  }

  /** The day is listed, and the calendar reaches it as it reaches the latest listed day. */
  lemma DayIsListed(a: Archive, c: Calendar, p: Period, day: nat)
    requires IsReady(a, day) && ReadyDays(a, p, PeriodStart(p, day)) != {} && Reached(c, p, MaxOf(ReadyDays(a, p, PeriodStart(p, day))))
    ensures day in ReadyDays(a, p, PeriodStart(p, day)) && Reached(c, p, day) && Reached(c, Month, day)
  {
    hide PeriodStart, Reached;
    ReachedEarlier(c, p, day, MaxOf(ReadyDays(a, p, PeriodStart(p, day))));
    YearReachesMonth(c, day);
  }

  lemma ReadingKeeps(w: World, c: Calendar, id: nat, p: Period, start: int)
    requires WorldOk(w, c)
    ensures WorldOk(RunSteps(w, c, Reading(id, p, start, ReadyDays(w.archive, p, start))), c)
  {
    hide RunSteps, WorldOk, ReadyDays;
    var days: set<nat> := ReadyDays(w.archive, p, start);
    ReadsOnly(id, days);
    forall s | s in Reading(id, p, start, days) ensures OwnDay(c, s) {
    }
    StepsKeep(w, c, Reading(id, p, start, days));
  }

  lemma {:induction false} ReadsOnly(id: nat, days: set<nat>)
    ensures forall s :: s in ReadAll(id, days) ==> s.ReadDay?
    decreases |days|
  {
    if days != {} {
      ReadsOnly(id, days - {MaxOf(days)});
    }
  }

  /** The first full day of an archive. */
  lemma FirstDayRuns(c: Calendar, day: nat, candles: seq<Row>)
    requires Trades(c, day) && Reached(c, Month, day) && forall r :: r in candles ==> TradeDay(r.bucket) == day
    requires candles != [] && |ToMap(candles)| >= SessionCloseMinute(c, day) - OPEN_MINUTE
    ensures var w := RunSteps(START, c, Writing(day, candles));
            && w.archive.minutes == map[day := Merge([], candles)] && w.archive.minuteStatus == map[day := Ready]
            && w.rebuilds == map[] && day !in w.pending
  {
    hide RunSteps, WorldOk, TradeDay, Begin, MergeDay, Trades, Reached, Merge, ToMap, SessionCloseMinute;
    var began := Begin(START, c, day, candles, false);
    FirstDayBegins(c, day, candles);
    StartInv(c);
    NextKeeps(START, c, BeginDay(day, candles, false));
    var month := MergeDay(began, c, day);
    MergeRuns(began, c, day);
    NextKeeps(began, c, MergeNext(day));
    MergeRuns(month, c, day);
    RunThree(START, c, BeginDay(day, candles, false), MergeNext(day), MergeNext(day));
  }

  lemma FirstDayBegins(c: Calendar, day: nat, candles: seq<Row>)
    requires Trades(c, day) && candles != [] && |ToMap(candles)| >= SessionCloseMinute(c, day) - OPEN_MINUTE
    ensures var w := Begin(START, c, day, candles, false);
            && w.archive.minutes == map[day := Merge([], candles)] && w.archive.minuteStatus == map[day := Ready]
            && w.rebuilds == map[] && w.pending == map[day := Month]
  {
    hide ToMap, FromMap, SessionCloseMinute;
    MergeMeaning([], candles);
    EmptyMap();
    ToMapRows(candles);
    assert map[] + ToMap(candles) == ToMap(candles);
    assert candles[0] in candles;
  }

  /**
   * So it does happen: for every calendar that reaches a trading day, every full set of candles of the day
   * and every later set that changes a coarser row, this run from the empty archive sets an object back.
   */
  lemma SetBackFromStart(c: Calendar, id: nat, p: Period, day: nat, candles: seq<Row>, incoming: seq<Row>, k: int)
    requires Trades(c, day) && Reached(c, p, day)
    requires forall r :: r in candles || r in incoming ==> TradeDay(r.bucket) == day
    requires candles != [] && |ToMap(candles)| >= SessionCloseMinute(c, day) - OPEN_MINUTE
    requires var was, anew := Derived(ToMap(candles), GrainOf(p)), Derived(ToMap(candles) + ToMap(incoming), GrainOf(p));
             k in was && (k !in anew || anew[k] != was[k])
    ensures var start := PeriodStart(p, day);
            var last := RunSteps(START, c, Writing(day, candles) + ((Reading(id, p, start, {day}) + Writing(day, incoming)) + [WriteRebuilt(id)]));
            var rows := RowsAt(last.archive.derived, (p, start));
            && ToMap(RowsAt(last.archive.minutes, day)) == ToMap(candles) + ToMap(incoming) && IsReady(last.archive, day)
            && k in ToMap(rows) && ToMap(rows)[k] == Derived(ToMap(candles), GrainOf(p))[k]
            && !Agrees(last.archive, c, p, start)
  {
    hide RunSteps, WorldOk, TradeDay, Trades, Reached, Merge, Derived, ToMap, Agrees, Reading, Writing, PeriodStart, GrainOf, SessionCloseMinute, ReadyDays, IsReady;
    var w := RunSteps(START, c, Writing(day, candles));
    YearReachesMonth(c, day);
    FirstDayReady(c, p, day, candles);
    MergeMeaning(RowsAt(w.archive.minutes, day), incoming);
    RebuildRace(w, c, id, p, day, incoming, k);
    RunMore(START, c, Writing(day, candles), (Reading(id, p, PeriodStart(p, day), {day}) + Writing(day, incoming)) + [WriteRebuilt(id)]);
  }

  lemma FirstDayReady(c: Calendar, p: Period, day: nat, candles: seq<Row>)
    requires Trades(c, day) && Reached(c, Month, day) && forall r :: r in candles ==> TradeDay(r.bucket) == day
    requires candles != [] && |ToMap(candles)| >= SessionCloseMinute(c, day) - OPEN_MINUTE
    ensures var w := RunSteps(START, c, Writing(day, candles));
            && WorldOk(w, c) && w.rebuilds == map[] && day !in w.pending && IsReady(w.archive, day)
            && ToMap(RowsAt(w.archive.minutes, day)) == ToMap(candles)
            && ReadyDays(w.archive, p, PeriodStart(p, day)) == {day} && MaxOf({day}) == day
  {
    hide RunSteps, WorldOk, TradeDay, Trades, Reached, Merge, ToMap, Writing, PeriodStart, SessionCloseMinute, ReadyDays, IsReady;
    var w := RunSteps(START, c, Writing(day, candles));
    FirstDayRuns(c, day, candles);
    EmptyMap();
    MergeMeaning([], candles);
    assert map[] + ToMap(candles) == ToMap(candles);
    OnlyDay(w.archive, p, day);
    forall s | s in Writing(day, candles) ensures OwnDay(c, s) {
      WritingIs(day, candles);
    }
    Reachable(c, Writing(day, candles));
  }

  lemma WritingIs(day: nat, incoming: seq<Row>)
    ensures Writing(day, incoming) == [BeginDay(day, incoming, false), MergeNext(day), MergeNext(day)]
  {
  }

  lemma OnlyDay(a: Archive, p: Period, day: nat)
    requires a.minuteStatus == map[day := Ready]
    ensures ReadyDays(a, p, PeriodStart(p, day)) == {day} && MaxOf({day}) == day && IsReady(a, day)
  {
    hide PeriodStart;
  }
}
