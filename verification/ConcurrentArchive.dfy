/**
 * Day writers and rebuilds of one symbol at work together. A day writer holds the lock of its day object
 * from the read of the day until both aggregates are written, and takes the lock of an aggregate object
 * for its own read-merge-write only; a rebuild reads the day objects one by one without their locks and
 * merges what it read later. So their writes interleave object by object, in any order, and a writer may
 * die in between. The module proves what the 1h and 1d objects hold at every moment; `ConcurrentRebuilds`
 * when that is the batch derivation.
 */
module ConcurrentArchive {
  import opened Wrappers
  import opened IntSets
  import opened CandleRows
  import opened KrxCalendar
  import opened SessionRows
  import opened ChartArchive

  /** A rebuild of one period object: the READY days it listed and what it has read of them so far. */
  datatype Rebuilding = Rebuilding(p: Period, start: int, days: set<nat>, read: map<int, seq<Row>>)

  /**
   * `pending` has the days being written, with the aggregate their writer merges into next; `abandoned`
   * the merges that a writer which died has left undone. `merges` records, for each aggregate and day,
   * the rows of the day merged into the aggregate, in order.
   */
  datatype World = World(
    archive: Archive,
    pending: map<int, Period>,
    abandoned: set<(Period, int)>,
    rebuilds: map<nat, Rebuilding>,
    merges: map<(Period, int), seq<seq<Row>>>)

  datatype Step =
    | BeginDay(day: nat, incoming: seq<Row>, requireReady: bool)
    | MergeNext(day: nat)
    | Abandon(day: nat)
    | ListDays(id: nat, p: Period, start: int)
    | ReadDay(id: nat, day: nat)
    | WriteRebuilt(id: nat)

  const START := World(EMPTY, map[], {}, map[], map[])

  function MergesOf(w: World, p: Period, day: int): seq<seq<Row>> {
    if (p, day) in w.merges then w.merges[(p, day)] else []
  }

  function Begin(w: World, c: Calendar, day: nat, incoming: seq<Row>, requireReady: bool): World {
    var merged := Merge(RowsAt(w.archive.minutes, day), incoming);
    match ExpectedOneMinuteRows(c, day)
    case None => w
    case Some(expected) =>
      if |merged| >= expected then
        w.(archive := PutDay(w.archive, day, merged, Ready),
           pending := if |merged| == 0 then w.pending else w.pending[day := Month],
           abandoned := w.abandoned - {(Month, day), (Year, day)})
      else if requireReady then w
      else w.(archive := PutDay(w.archive, day, merged, Partial))
  }

  /** The next aggregate of a day; an error of the calendar ends the writer. */
  function MergeDay(w: World, c: Calendar, day: nat): World
    requires day in w.pending
  {
    var p, rows := w.pending[day], RowsAt(w.archive.minutes, day);
    var (after, ok) := WritePeriod(w.archive, c, p, day, rows);
    w.(archive := after,
       pending := if ok && p == Month then w.pending[day := Year] else w.pending - {day},
       merges := if ok then w.merges[(p, day) := MergesOf(w, p, day) + [rows]] else w.merges)
  }

  function Give(w: World, day: nat): World
    requires day in w.pending
  {
    w.(pending := w.pending - {day},
       abandoned := w.abandoned + {(Year, day)} + if w.pending[day] == Month then {(Month, day)} else {})
  }

  /** The merges after a rebuild of an aggregate laid the days it read over it. */
  function Relaid(w: World, r: Rebuilding): map<(Period, int), seq<seq<Row>>> {
    map key | key in w.merges.Keys + (set d | d in r.days :: (r.p, d)) ::
      if key.0 == r.p && key.1 in r.days then MergesOf(w, key.0, key.1) + [RowsAt(r.read, key.1)] else MergesOf(w, key.0, key.1)
  }

  /** What dead writers left undone, but for the days that the rebuild read as they are stored. */
  function StillOwed(w: World, r: Rebuilding): set<(Period, int)> {
    set key | key in w.abandoned
      && !(key.0 == r.p && key.1 in r.days && RowsAt(r.read, key.1) == RowsAt(w.archive.minutes, key.1))
  }

  /** The write of a rebuild that has read all its days; without a row, or against an error of the calendar, it writes nothing. */
  function Rebuilt(w: World, c: Calendar, id: nat): World
    requires id in w.rebuilds
  {
    var r := w.rebuilds[id];
    var done := w.(rebuilds := w.rebuilds - {id});
    var rows := Batch(r.read, r.days);
    if r.days == {} || |rows| == 0 then done
    else
      var (after, ok) := WritePeriod(w.archive, c, r.p, MaxTradeDay(rows, MaxOf(r.days)), rows);
      if !ok then done
      else
        done.(archive := after, merges := Relaid(w, r), abandoned := StillOwed(w, r))
  }

  /** A day's lock admits one writer at a time. */
  function Next(w: World, c: Calendar, s: Step): World {
    match s
    case BeginDay(day, incoming, requireReady) => if day in w.pending then w else Begin(w, c, day, incoming, requireReady)
    case MergeNext(day) => if day in w.pending then MergeDay(w, c, day) else w
    case Abandon(day) => if day in w.pending then Give(w, day) else w
    case ListDays(id, p, start) =>
      if id in w.rebuilds then w
      else w.(rebuilds := w.rebuilds[id := Rebuilding(p, start, ReadyDays(w.archive, p, start), map[])])
    case ReadDay(id, day) =>
      if id !in w.rebuilds || day !in w.rebuilds[id].days || day in w.rebuilds[id].read then w
      else
        var r := w.rebuilds[id];
        w.(rebuilds := w.rebuilds[id := r.(read := r.read[day := RowsAt(w.archive.minutes, day)])])
    case WriteRebuilt(id) => if CanWrite(w, id) then Rebuilt(w, c, id) else w
  }

  predicate CanWrite(w: World, id: nat) {
    id in w.rebuilds && w.rebuilds[id].read.Keys == w.rebuilds[id].days
  }

  function RunSteps(w: World, c: Calendar, steps: seq<Step>): World
    decreases |steps|
  {
    if |steps| == 0 then w else RunSteps(Next(w, c, steps[0]), c, steps[1..])
  }

  /** Writers write trading days, and candles of the day they write. */
  predicate OwnDay(c: Calendar, s: Step) {
    s.BeginDay? ==> Trades(c, s.day) && forall r :: r in s.incoming ==> TradeDay(r.bucket) == s.day
  }

  // ---------------------------------------------------------------- what was merged

  /** The derivations of several rows of one day laid over each other, later ones winning. */
  function Laid(g: Grain, merges: seq<seq<Row>>): map<int, Row> {
    if |merges| == 0 then map[] else Laid(g, merges[..|merges| - 1]) + Derived(ToMap(merges[|merges| - 1]), g)
  }

  lemma LaidMore(g: Grain, merges: seq<seq<Row>>, rows: seq<Row>)
    ensures Laid(g, merges + [rows]) == Laid(g, merges) + Derived(ToMap(rows), g)
  {
    hide ToMap, Derived;
    assert (merges + [rows])[..|merges|] == merges;
  }

  /** Rows of a day with no bucket that the day object lacks. */
  ghost predicate Fits(a: Archive, day: int, rows: seq<Row>) {
    OfDay(day, rows) && ToMap(rows).Keys <= ToMap(RowsAt(a.minutes, day)).Keys
  }

  ghost predicate AllFit(a: Archive, day: int, merges: seq<seq<Row>>) {
    forall i :: 0 <= i < |merges| ==> Fits(a, day, merges[i])
  }

  /** What is laid has no bucket that the day object would not derive, and only buckets of the day. */
  lemma {:induction false} LaidKeys(a: Archive, day: int, g: Grain, merges: seq<seq<Row>>)
    requires AllFit(a, day, merges)
    ensures Laid(g, merges).Keys <= Groups(ToMap(RowsAt(a.minutes, day)), g)
    ensures forall k :: k in Laid(g, merges) ==> TradeDay(k) == day
    decreases |merges|
  {
    hide ToMap, TradeDay, GroupOf;
    if |merges| > 0 {
      var rows := merges[|merges| - 1];
      LaidKeys(a, day, g, merges[..|merges| - 1]);
      assert Fits(a, day, rows);
      GroupsGrow(ToMap(rows), ToMap(RowsAt(a.minutes, day)), g);
      DerivedOfDay(day, rows, g);
    }
  }

  lemma DerivedOfDay(day: int, rows: seq<Row>, g: Grain)
    requires OfDay(day, rows)
    ensures forall k :: k in Derived(ToMap(rows), g) ==> TradeDay(k) == day
  {
    hide ToMap, TradeDay, GroupOf;
    forall b | b in Groups(ToMap(rows), g) ensures TradeDay(b) == day {
      var k :| k in ToMap(rows) && GroupOf(g, k) == b;
      GroupKeepsDate(g, k);
    }
  }

  predicate InPeriod(p: Period, start: int, k: int) {
    TradeDay(k) >= 0 && PeriodStart(p, TradeDay(k)) == start
  }

  /** A bucket of a period object is what its day's merges laid there. */
  ghost predicate ObjectOk(w: World, p: Period, start: int) {
    var stored := RowsAt(w.archive.derived, (p, start));
    && Sorted(stored)
    && (forall k :: k in ToMap(stored) <==> InPeriod(p, start, k) && k in Laid(GrainOf(p), MergesOf(w, p, TradeDay(k))))
    && (forall k :: k in ToMap(stored) ==> ToMap(stored)[k] == Laid(GrainOf(p), MergesOf(w, p, TradeDay(k)))[k])
  }

  /** A bucket of the derivation from several days is in the derivation of its own day. */
  lemma {:induction false} BatchDerivedByDay(minutes: map<int, seq<Row>>, days: set<int>, g: Grain)
    requires forall d: int :: d in minutes ==> OfDay(d, minutes[d])
    ensures var batch := Derived(ToMap(Batch(minutes, days)), g);
            && (forall k :: k in batch <==> TradeDay(k) in days && k in Derived(ToMap(RowsAt(minutes, TradeDay(k))), g))
            && (forall k :: k in batch ==> batch[k] == Derived(ToMap(RowsAt(minutes, TradeDay(k))), g)[k])
    decreases |days|
  {
    hide ToMap, TradeDay, GroupOf, Derived, OfDay;
    if days == {} {
      EmptyMap();
      assert Groups(map[], g) == {};
    } else {
      var top := MaxOf(days);
      var rest := days - {top};
      BatchDerivedByDay(minutes, rest, g);
      OneMoreDay(minutes, rest, top, g);
    }
  }

  lemma OneMoreDay(minutes: map<int, seq<Row>>, rest: set<int>, day: int, g: Grain)
    requires (forall d: int :: d in minutes ==> OfDay(d, minutes[d])) && day !in rest
    ensures Derived(ToMap(Batch(minutes, rest) + RowsAt(minutes, day)), g)
            == Derived(ToMap(Batch(minutes, rest)), g) + Derived(ToMap(RowsAt(minutes, day)), g)
    ensures forall k :: k in Derived(ToMap(RowsAt(minutes, day)), g) ==> TradeDay(k) == day
  {
    hide ToMap, TradeDay, Derived, Batch;
    EmptyMap();
    BatchByBucket(minutes, rest);
    ToMapConcat(Batch(minutes, rest), RowsAt(minutes, day));
    DatesApart(ToMap(Batch(minutes, rest)), ToMap(RowsAt(minutes, day)), g, day);
    DerivedUnion(ToMap(Batch(minutes, rest)), ToMap(RowsAt(minutes, day)), g);
    DerivedOfDay(day, RowsAt(minutes, day), g);
  }

  // ---------------------------------------------------------------- invariant

  ghost predicate MergedOk(w: World, c: Calendar, p: Period, day: int) {
    MergesOf(w, p, day) != [] ==>
      day >= 0 && Reached(c, p, day) && IsReady(w.archive, day) && AllFit(w.archive, day, MergesOf(w, p, day))
  }

  ghost predicate RebuildOk(w: World, r: Rebuilding) {
    && (forall d: int :: d in r.days ==> d >= 0 && PeriodStart(r.p, d) == r.start && IsReady(w.archive, d))
    && (forall d: int :: d in r.read ==> d in r.days && Sorted(r.read[d]) && Fits(w.archive, d, r.read[d]))
  }

  ghost predicate DaysOk(w: World, c: Calendar) {
    && ObjectsOk(w.archive) && StatusOk(w.archive, c)
    && (forall d: int :: d in w.pending ==> IsReady(w.archive, d))
    && (forall p: Period, d: int :: MergedOk(w, c, p, d))
    && (forall id :: id in w.rebuilds ==> RebuildOk(w, w.rebuilds[id]))
  }

  ghost predicate AllObjectsOk(w: World) { forall p: Period, start: int :: ObjectOk(w, p, start) }

  ghost predicate WorldOk(w: World, c: Calendar) { DaysOk(w, c) && AllObjectsOk(w) }

  /** Day objects keep their buckets, and READY days stay READY. */
  ghost predicate Grows(a: Archive, b: Archive) {
    && (forall d: int :: IsReady(a, d) ==> IsReady(b, d))
    && (forall d: int :: ToMap(RowsAt(a.minutes, d)).Keys <= ToMap(RowsAt(b.minutes, d)).Keys)
  }

  lemma FitsMore(a: Archive, b: Archive, day: int, rows: seq<Row>)
    requires Grows(a, b) && Fits(a, day, rows)
    ensures Fits(b, day, rows)
  {
    hide ToMap, OfDay;
  }

  lemma MergedMore(w: World, next: World, c: Calendar, p: Period, day: int)
    requires MergedOk(w, c, p, day) && Grows(w.archive, next.archive) && MergesOf(next, p, day) == MergesOf(w, p, day)
    ensures MergedOk(next, c, p, day)
  {
    hide Fits, Reached, IsReady;
    var merges := MergesOf(w, p, day);
    if merges != [] {
      forall i | 0 <= i < |merges| ensures Fits(next.archive, day, merges[i]) {
        FitsMore(w.archive, next.archive, day, merges[i]);
      }
    }
  }

  lemma RebuildMore(w: World, next: World, r: Rebuilding)
    requires RebuildOk(w, r) && Grows(w.archive, next.archive)
    ensures RebuildOk(next, r)
  {
    hide Fits, IsReady, Sorted, PeriodStart;
    forall d: int | d in r.read ensures Fits(next.archive, d, r.read[d]) {
      FitsMore(w.archive, next.archive, d, r.read[d]);
    }
  }

  lemma SameObjects(w: World, next: World)
    requires AllObjectsOk(w) && next.archive.derived == w.archive.derived && next.merges == w.merges
    ensures AllObjectsOk(next)
  {
    hide Laid, InPeriod, Sorted, ToMap;
    forall p: Period, start: int ensures ObjectOk(next, p, start) {
      assert ObjectOk(w, p, start);
    }
  }

  // ---------------------------------------------------------------- a day begins

  lemma BeginGrows(w: World, c: Calendar, day: nat, incoming: seq<Row>, requireReady: bool)
    requires ObjectsOk(w.archive) && StatusOk(w.archive, c)
    requires Trades(c, day) && forall r :: r in incoming ==> TradeDay(r.bucket) == day
    ensures var next := Begin(w, c, day, incoming, requireReady);
            && ObjectsOk(next.archive) && StatusOk(next.archive, c) && Grows(w.archive, next.archive)
            && next.archive.derived == w.archive.derived && next.merges == w.merges && next.rebuilds == w.rebuilds
            && (forall d: int :: d in next.pending ==> d in w.pending || (d == day && IsReady(next.archive, day)))
            && (forall d: int :: d != day ==> RowsAt(next.archive.minutes, d) == RowsAt(w.archive.minutes, d)
                                              && (IsReady(next.archive, d) <==> IsReady(w.archive, d)))
            && (IsReady(w.archive, day) ==>
                  RowsAt(next.archive.minutes, day) == Merge(RowsAt(w.archive.minutes, day), incoming))
  {
    hide ToMap, TradeDay, Merge, Sorted, OfDay, SessionCloseMinute, StatusOk, ObjectsOk, PutDay, Grows;
    var merged := Merge(RowsAt(w.archive.minutes, day), incoming);
    var expected := SessionCloseMinute(c, day) - OPEN_MINUTE;
    MergedDay(w.archive, day, incoming);
    assert ExpectedOneMinuteRows(c, day) == Some(expected);
    var status := if |merged| >= expected then Ready else Partial;
    PutDayOk(w.archive, day, merged, status);
    PutKeepsStatus(w.archive, c, day, merged, status);
    if IsReady(w.archive, day) {
      ReadyIsCounted(w.archive, c, day);
    }
    PutGrows(w.archive, day, merged, status);
    SameGrows(w.archive, w.archive);
  }

  lemma PutGrows(a: Archive, day: int, rows: seq<Row>, status: Status)
    requires ToMap(RowsAt(a.minutes, day)).Keys <= ToMap(rows).Keys && (IsReady(a, day) ==> status == Ready)
    ensures var b := PutDay(a, day, rows, status);
            && Grows(a, b) && b.derived == a.derived && RowsAt(b.minutes, day) == rows && (IsReady(b, day) <==> status == Ready)
            && (forall d: int :: d != day ==> RowsAt(b.minutes, d) == RowsAt(a.minutes, d) && (IsReady(b, d) <==> IsReady(a, d)))
  {
    hide ToMap;
  }

  lemma ReadyIsCounted(a: Archive, c: Calendar, day: nat)
    requires StatusOk(a, c) && IsReady(a, day)
    ensures |RowsAt(a.minutes, day)| >= SessionCloseMinute(c, day) - OPEN_MINUTE
  {
    hide SessionCloseMinute;
  }

  lemma BeginKeeps(w: World, c: Calendar, day: nat, incoming: seq<Row>, requireReady: bool)
    requires WorldOk(w, c) && Trades(c, day) && forall r :: r in incoming ==> TradeDay(r.bucket) == day
    ensures WorldOk(Begin(w, c, day, incoming, requireReady), c)
  {
    hide TradeDay, Begin, ObjectsOk, StatusOk, MergedOk, RebuildOk, IsReady, Grows, AllObjectsOk;
    var next := Begin(w, c, day, incoming, requireReady);
    BeginGrows(w, c, day, incoming, requireReady);
    SameObjects(w, next);
    GrownDays(w, next, c);
  }

  lemma GrownDays(w: World, next: World, c: Calendar)
    requires DaysOk(w, c) && Grows(w.archive, next.archive) && next.merges == w.merges && next.rebuilds == w.rebuilds
    requires ObjectsOk(next.archive) && StatusOk(next.archive, c)
    requires forall d: int :: d in next.pending ==> d in w.pending || IsReady(next.archive, d)
    ensures DaysOk(next, c)
  {
    hide ObjectsOk, StatusOk, MergedOk, RebuildOk, IsReady;
    forall p: Period, d: int ensures MergedOk(next, c, p, d) {
      MergedMore(w, next, c, p, d);
    }
    forall id | id in next.rebuilds ensures RebuildOk(next, next.rebuilds[id]) {
      RebuildMore(w, next, next.rebuilds[id]);
    }
  }

  // ---------------------------------------------------------------- an aggregate is written

  lemma Unmerged(w: World, c: Calendar, p: Period, start: int, k: int)
    requires DaysOk(w, c) && ObjectOk(w, p, start) && k in ToMap(RowsAt(w.archive.derived, (p, start)))
    ensures TradeDay(k) >= 0 && PeriodStart(p, TradeDay(k)) == start && Reached(c, p, TradeDay(k)) && IsReady(w.archive, TradeDay(k))
  {
    hide ToMap, TradeDay, PeriodStart, Reached, IsReady, Sorted, AllFit;
    assert MergedOk(w, c, p, TradeDay(k));
  }

  /** The latest date in a merged object is one the calendar answers for, if it does for the date of the write. */
  lemma MergedAnswers(w: World, c: Calendar, p: Period, day: nat, rows: seq<Row>)
    requires DaysOk(w, c) && ObjectOk(w, p, PeriodStart(p, day)) && MaxTradeDay(rows, day) == day && Reached(c, p, day)
    ensures var start := PeriodStart(p, day);
            Answers(c, start, MaxTradeDay(Merge(RowsAt(w.archive.derived, (p, start)), DeriveSeq(rows, GrainOf(p))), day))
  {
    hide ToMap, FromMap, TradeDay, Derived, PeriodStart, GrainOf, Merge, Answers, MaxTradeDay, DaysOk, ObjectOk, IsReady;
    var start := PeriodStart(p, day);
    var stored, own := RowsAt(w.archive.derived, (p, start)), DeriveSeq(rows, GrainOf(p));
    var merged := Merge(stored, own);
    MaxTradeDayIs(merged, day);
    if MaxTradeDay(merged, day) != day {
      var r :| r in merged && TradeDay(r.bucket) == MaxTradeDay(merged, day);
      MergeMeaning(stored, own);
      ToMapRows(merged);
      if r.bucket in ToMap(stored) {
        Unmerged(w, c, p, start, r.bucket);
      } else {
        NotPast(rows, GrainOf(p), day, r.bucket);
      }
    }
  }

  lemma NotPast(rows: seq<Row>, g: Grain, day: nat, k: int)
    requires MaxTradeDay(rows, day) == day && k in ToMap(DeriveSeq(rows, g))
    ensures TradeDay(k) <= day
  {
    hide ToMap, FromMap, TradeDay, MaxTradeDay, GroupOf, Summary, Part;
    var own := DeriveSeq(rows, g);
    DerivedMeaning(ToMap(rows), g);
    var j :| j in ToMap(rows) && GroupOf(g, j) == k;
    GroupKeepsDate(g, j);
    ToMapRows(rows);
    MaxTradeDayIs(rows, day);
  }

  /** A period object is written exactly when the calendar reaches the date of the write, and then holds the merge. */
  lemma WriteEffect(w: World, c: Calendar, p: Period, day: nat, rows: seq<Row>)
    requires DaysOk(w, c) && ObjectOk(w, p, PeriodStart(p, day)) && MaxTradeDay(rows, day) == day
    ensures var (after, ok) := WritePeriod(w.archive, c, p, day, rows);
            var key := (p, PeriodStart(p, day));
            && (ok <==> Reached(c, p, day)) && (!ok ==> after == w.archive)
            && after.minutes == w.archive.minutes && after.minuteStatus == w.archive.minuteStatus
            && (ok ==> after.derived == w.archive.derived[key := Merge(RowsAt(w.archive.derived, key), DeriveSeq(rows, GrainOf(p)))])
  {
    hide ExpectedRowsInPeriod, PeriodStart, Merge, DeriveSeq, MaxTradeDay, Answers, GrainOf, DaysOk, ObjectOk;
    var start := PeriodStart(p, day);
    ExpectedExactlyWhen(c, p, start, day);
    if Reached(c, p, day) {
      MergedAnswers(w, c, p, day, rows);
      ExpectedExactlyWhen(c, p, start,
        MaxTradeDay(Merge(RowsAt(w.archive.derived, (p, start)), DeriveSeq(rows, GrainOf(p))), day));
    }
  }

  /** What a write does bucket by bucket. */
  lemma ObjectMerged(stored: seq<Row>, rows: seq<Row>, g: Grain)
    ensures var merged := Merge(stored, DeriveSeq(rows, g));
            Sorted(merged) && ToMap(merged) == ToMap(stored) + Derived(ToMap(rows), g)
  {
    hide ToMap, FromMap, Merge, GroupOf;
    MergeMeaning(stored, DeriveSeq(rows, g));
    DerivedMeaning(ToMap(rows), g);
  }

  // ---------------------------------------------------------------- a day is merged

  lemma PendingRows(w: World, c: Calendar, day: nat)
    requires DaysOk(w, c) && day in w.pending
    ensures var rows := RowsAt(w.archive.minutes, day);
            IsReady(w.archive, day) && OfDay(day, rows) && Fits(w.archive, day, rows) && MaxTradeDay(rows, day) == day
  {
    hide ToMap, MaxTradeDay, StatusOk, Sorted, MergedOk, RebuildOk;
    EmptyMap();
    OneDate(day, RowsAt(w.archive.minutes, day));
  }

  lemma MergeKeepsDays(w: World, c: Calendar, day: nat)
    requires WorldOk(w, c) && day in w.pending
    ensures DaysOk(MergeDay(w, c, day), c)
  {
    hide ToMap, WritePeriod, Reached, PeriodStart, AllObjectsOk, ObjectOk, IsReady, Fits, MaxTradeDay, RebuildOk, OfDay;
    var next, p := MergeDay(w, c, day), w.pending[day];
    var rows := RowsAt(w.archive.minutes, day);
    PendingRows(w, c, day);
    assert ObjectOk(w, p, PeriodStart(p, day)) by { OneObject(w, p, PeriodStart(p, day)); }
    WriteEffect(w, c, p, day, rows);
    SameDays(w.archive, next.archive, c);
    SameGrows(w.archive, next.archive);
    forall q: Period, d: int ensures MergedOk(next, c, q, d) {
      assert MergedOk(w, c, q, d);
      if MergesOf(next, q, d) == MergesOf(w, q, d) {
        MergedMore(w, next, c, q, d);
      } else {
        SameFits(w.archive, next.archive, d, MergesOf(w, q, d), rows);
      }
    }
    forall id | id in next.rebuilds ensures RebuildOk(next, next.rebuilds[id]) {
      RebuildMore(w, next, next.rebuilds[id]);
    }
    SameReady(w.archive, next.archive);
  }

  lemma OneObject(w: World, p: Period, start: int)
    requires AllObjectsOk(w)
    ensures ObjectOk(w, p, start)
  {
    hide ObjectOk;
  }

  lemma SameGrows(a: Archive, b: Archive)
    requires b.minutes == a.minutes && b.minuteStatus == a.minuteStatus
    ensures Grows(a, b)
  {
    hide ToMap;
  }

  lemma SameReady(a: Archive, b: Archive)
    requires b.minuteStatus == a.minuteStatus
    ensures forall d: int :: IsReady(a, d) <==> IsReady(b, d)
  {
  }

  lemma SameFits(a: Archive, b: Archive, day: int, merges: seq<seq<Row>>, rows: seq<Row>)
    requires b.minutes == a.minutes && (merges != [] ==> AllFit(a, day, merges)) && Fits(a, day, rows)
    ensures AllFit(b, day, merges + [rows])
  {
    hide ToMap, OfDay;
  }

  lemma MergeKeepsObjects(w: World, c: Calendar, day: nat)
    requires WorldOk(w, c) && day in w.pending
    ensures AllObjectsOk(MergeDay(w, c, day))
  {
    hide DaysOk, WritePeriod, PeriodStart, Reached, ObjectOk, MaxTradeDay, OfDay, Fits, IsReady, AllObjectsOk, Merge, DeriveSeq, MergesOf;
    var next, p := MergeDay(w, c, day), w.pending[day];
    PendingRows(w, c, day);
    OneObject(w, p, PeriodStart(p, day));
    WriteEffect(w, c, p, day, RowsAt(w.archive.minutes, day));
    if Reached(c, p, day) {
      DayMerged(w, next, p, day, RowsAt(w.archive.minutes, day));
    } else {
      SameObjects(w, next);
    }
  }

  lemma DayMerged(w: World, next: World, p: Period, day: nat, rows: seq<Row>)
    requires AllObjectsOk(w) && OfDay(day, rows)
    requires var key := (p, PeriodStart(p, day));
             next.archive.derived == w.archive.derived[key := Merge(RowsAt(w.archive.derived, key), DeriveSeq(rows, GrainOf(p)))]
    requires next.merges == w.merges[(p, day) := MergesOf(w, p, day) + [rows]]
    ensures AllObjectsOk(next)
  {
    hide PeriodStart, ObjectOk, OfDay, AllObjectsOk, Merge, DeriveSeq, GrainOf;
    forall q: Period, start: int ensures ObjectOk(next, q, start) {
      OneObject(w, q, start);
      if q == p && start == PeriodStart(p, day) {
        DayLaid(w, next, p, day, rows);
      } else {
        OtherObject(w, next, q, start);
      }
    }
    EveryObject(next);
  }

  lemma EveryObject(w: World)
    requires forall p: Period, start: int :: ObjectOk(w, p, start)
    ensures AllObjectsOk(w)
  {
    hide ObjectOk;
  }

  /** At a bucket, the merges of its day have laid `own` over what they laid before. */
  ghost predicate LaidOver(before: map<int, Row>, after: map<int, Row>, own: map<int, Row>, k: int) {
    && (k in after <==> k in before || k in own)
    && (k in after ==> after[k] == if k in own then own[k] else before[k])
  }

  lemma ObjectLaid(w: World, next: World, p: Period, start: int, own: map<int, Row>)
    requires ObjectOk(w, p, start) && forall k :: k in own ==> InPeriod(p, start, k)
    requires Sorted(RowsAt(next.archive.derived, (p, start)))
    requires ToMap(RowsAt(next.archive.derived, (p, start))) == ToMap(RowsAt(w.archive.derived, (p, start))) + own
    requires forall k :: LaidOver(Laid(GrainOf(p), MergesOf(w, p, TradeDay(k))), Laid(GrainOf(p), MergesOf(next, p, TradeDay(k))), own, k)
    ensures ObjectOk(next, p, start)
  {
    hide ToMap, TradeDay, Sorted, Laid, MergesOf, GrainOf, InPeriod;
    forall k ensures LaidOver(Laid(GrainOf(p), MergesOf(w, p, TradeDay(k))), Laid(GrainOf(p), MergesOf(next, p, TradeDay(k))), own, k) {
    }
  }

  /** The object a day was merged into. */
  lemma DayLaid(w: World, next: World, p: Period, day: nat, rows: seq<Row>)
    requires ObjectOk(w, p, PeriodStart(p, day)) && OfDay(day, rows)
    requires var key := (p, PeriodStart(p, day));
             RowsAt(next.archive.derived, key) == Merge(RowsAt(w.archive.derived, key), DeriveSeq(rows, GrainOf(p)))
    requires MergesOf(next, p, day) == MergesOf(w, p, day) + [rows]
    requires forall d: int :: d != day ==> MergesOf(next, p, d) == MergesOf(w, p, d)
    ensures ObjectOk(next, p, PeriodStart(p, day))
  {
    hide ToMap, Merge, DeriveSeq, Derived, TradeDay, PeriodStart, Sorted, Laid, MergesOf, OfDay, GrainOf, ObjectOk;
    ObjectMerged(RowsAt(w.archive.derived, (p, PeriodStart(p, day))), rows, GrainOf(p));
    DerivedOfDay(day, rows, GrainOf(p));
    LaidMore(GrainOf(p), MergesOf(w, p, day), rows);
    ObjectLaid(w, next, p, PeriodStart(p, day), Derived(ToMap(rows), GrainOf(p)));
  }

  /** An object that was not written, and none of whose days was merged. */
  lemma OtherObject(w: World, next: World, p: Period, start: int)
    requires ObjectOk(w, p, start) && RowsAt(next.archive.derived, (p, start)) == RowsAt(w.archive.derived, (p, start))
    requires forall d: int :: d >= 0 && PeriodStart(p, d) == start ==> MergesOf(next, p, d) == MergesOf(w, p, d)
    ensures ObjectOk(next, p, start)
  {
    hide ToMap, TradeDay, PeriodStart, Sorted, Laid, MergesOf, GrainOf;
  }

  // ---------------------------------------------------------------- a rebuild

  /** The rows a rebuild has read are of its days, and the latest of them is the date it writes for. */
  lemma ReadRows(w: World, r: Rebuilding)
    requires RebuildOk(w, r) && r.read.Keys == r.days && r.days != {}
    ensures var rows := Batch(r.read, r.days);
            MaxTradeDay(rows, MaxOf(r.days)) == MaxOf(r.days) && PeriodStart(r.p, MaxOf(r.days)) == r.start
    ensures forall d: int :: d in r.read ==> OfDay(d, r.read[d])
  {
    hide ToMap, TradeDay, PeriodStart, Batch, IsReady, Sorted, MaxTradeDay;
    var rows := Batch(r.read, r.days);
    BatchByBucket(r.read, r.days);
    ToMapRows(rows);
    MaxTradeDayIs(rows, MaxOf(r.days));
  }

  /** The rebuild writes: its days are READY, the calendar reaches them, and what it read is merged. */
  lemma RebuildEffect(w: World, c: Calendar, id: nat)
    requires WorldOk(w, c) && CanWrite(w, id)
    ensures var r, next := w.rebuilds[id], Rebuilt(w, c, id);
            && next.archive.minutes == w.archive.minutes && next.archive.minuteStatus == w.archive.minuteStatus
            && next.pending == w.pending && next.rebuilds == w.rebuilds - {id}
            && if r.days != {} && Batch(r.read, r.days) != [] && Reached(c, r.p, MaxOf(r.days)) then
                 && next.merges == Relaid(w, r) && next.abandoned == StillOwed(w, r)
                 && next.archive.derived == w.archive.derived[(r.p, r.start) :=
                      Merge(RowsAt(w.archive.derived, (r.p, r.start)), DeriveSeq(Batch(r.read, r.days), GrainOf(r.p)))]
               else next == w.(rebuilds := w.rebuilds - {id})
  {
    hide Batch, WritePeriod, PeriodStart, Reached, Merge, DeriveSeq, MaxTradeDay, ObjectOk, Relaid, StillOwed, GrainOf, AllObjectsOk, RebuildOk, MergedOk, ObjectsOk, StatusOk;
    var r := w.rebuilds[id];
    if r.days != {} && Batch(r.read, r.days) != [] {
      ReadRows(w, r);
      OneObject(w, r.p, r.start);
      WriteEffect(w, c, r.p, MaxOf(r.days), Batch(r.read, r.days));
    }
  }

  lemma RelaidOf(w: World, r: Rebuilding, next: World)
    requires next.merges == Relaid(w, r)
    ensures forall p: Period, d: int :: MergesOf(next, p, d)
              == MergesOf(w, p, d) + if p == r.p && d in r.days then [RowsAt(r.read, d)] else []
  {
    forall p: Period, d: int
      ensures MergesOf(next, p, d) == MergesOf(w, p, d) + if p == r.p && d in r.days then [RowsAt(r.read, d)] else []
    {
      assert (p, d) in next.merges <==> (p, d) in w.merges || (p == r.p && d in r.days);
    }
  }

  lemma RebuiltMergedOk(w: World, next: World, c: Calendar, r: Rebuilding, p: Period, d: int)
    requires MergedOk(w, c, p, d) && RebuildOk(w, r) && r.read.Keys == r.days && r.days != {} && Reached(c, r.p, MaxOf(r.days))
    requires next.archive.minutes == w.archive.minutes && next.archive.minuteStatus == w.archive.minuteStatus
    requires MergesOf(next, p, d) == MergesOf(w, p, d) + if p == r.p && d in r.days then [RowsAt(r.read, d)] else []
    ensures MergedOk(next, c, p, d)
  {
    hide PeriodStart, Reached, Fits, Sorted;
    SameReady(w.archive, next.archive);
    if p == r.p && d in r.days {
      ReachedEarlier(c, p, d, MaxOf(r.days));
      SameFits(w.archive, next.archive, d, MergesOf(w, p, d), r.read[d]);
    } else {
      SameGrows(w.archive, next.archive);
      MergedMore(w, next, c, p, d);
    }
  }

  lemma RebuildKeepsDays(w: World, c: Calendar, id: nat)
    requires WorldOk(w, c) && CanWrite(w, id)
    ensures DaysOk(Rebuilt(w, c, id), c)
  {
    hide ObjectsOk, StatusOk, MergedOk, RebuildOk, IsReady, Rebuilt, Reached, MergesOf, Relaid, Batch, AllObjectsOk;
    var r, next := w.rebuilds[id], Rebuilt(w, c, id);
    RebuildEffect(w, c, id);
    SameDays(w.archive, next.archive, c);
    SameGrows(w.archive, next.archive);
    SameReady(w.archive, next.archive);
    if next.merges == Relaid(w, r) && r.days != {} && Reached(c, r.p, MaxOf(r.days)) {
      RelaidOf(w, r, next);
      forall p: Period, d: int ensures MergedOk(next, c, p, d) {
        RebuiltMergedOk(w, next, c, r, p, d);
      }
    } else {
      forall p: Period, d: int ensures MergedOk(next, c, p, d) {
        SameMergesOf(w, next, p, d);
        MergedMore(w, next, c, p, d);
      }
    }
    forall i | i in next.rebuilds ensures RebuildOk(next, next.rebuilds[i]) {
      RebuildMore(w, next, next.rebuilds[i]);
    }
  }

  lemma SameMergesOf(w: World, next: World, p: Period, d: int)
    requires next.merges == w.merges
    ensures MergesOf(next, p, d) == MergesOf(w, p, d)
  {
  }

  lemma RebuildKeepsObjects(w: World, c: Calendar, id: nat)
    requires WorldOk(w, c) && CanWrite(w, id)
    ensures AllObjectsOk(Rebuilt(w, c, id))
  {
    hide ObjectsOk, StatusOk, MergedOk, Rebuilt, Reached, MergesOf, Relaid, Batch, AllObjectsOk, ObjectOk, Merge, DeriveSeq, PeriodStart, IsReady, GrainOf;
    var r, next := w.rebuilds[id], Rebuilt(w, c, id);
    RebuildEffect(w, c, id);
    if r.days != {} && Batch(r.read, r.days) != [] && Reached(c, r.p, MaxOf(r.days)) {
      ReadRows(w, r);
      RelaidOf(w, r, next);
      forall q: Period, start: int ensures ObjectOk(next, q, start) {
        OneObject(w, q, start);
        if q == r.p && start == r.start {
          DaysLaid(w, next, r);
        } else {
          OtherObject(w, next, q, start);
        }
      }
      EveryObject(next);
    } else {
      SameObjects(w, next);
    }
  }

  /** The object that a rebuild merged what it read into. */
  lemma DaysLaid(w: World, next: World, r: Rebuilding)
    requires ObjectOk(w, r.p, r.start) && RebuildOk(w, r) && forall d: int :: d in r.read ==> OfDay(d, r.read[d])
    requires RowsAt(next.archive.derived, (r.p, r.start))
             == Merge(RowsAt(w.archive.derived, (r.p, r.start)), DeriveSeq(Batch(r.read, r.days), GrainOf(r.p)))
    requires forall d: int :: MergesOf(next, r.p, d) == MergesOf(w, r.p, d) + if d in r.days then [RowsAt(r.read, d)] else []
    ensures ObjectOk(next, r.p, r.start)
  {
    hide ToMap, Merge, DeriveSeq, Derived, TradeDay, PeriodStart, Sorted, Laid, MergesOf, OfDay, GrainOf, Batch, Fits, IsReady, ObjectOk, LaidOver;
    var g := GrainOf(r.p);
    var own := Derived(ToMap(Batch(r.read, r.days)), g);
    ObjectMerged(RowsAt(w.archive.derived, (r.p, r.start)), Batch(r.read, r.days), g);
    BatchDerivedByDay(r.read, r.days, g);
    forall k ensures LaidOver(Laid(g, MergesOf(w, r.p, TradeDay(k))), Laid(g, MergesOf(next, r.p, TradeDay(k))), own, k) {
      LaidAtDay(g, MergesOf(w, r.p, TradeDay(k)), TradeDay(k) in r.days, RowsAt(r.read, TradeDay(k)), own, k);
    }
    ObjectLaid(w, next, r.p, r.start, own);
  }

  lemma LaidAtDay(g: Grain, merges: seq<seq<Row>>, more: bool, rows: seq<Row>, own: map<int, Row>, k: int)
    requires k in own <==> more && k in Derived(ToMap(rows), g)
    requires k in own ==> own[k] == Derived(ToMap(rows), g)[k]
    ensures LaidOver(Laid(g, merges), Laid(g, merges + if more then [rows] else []), own, k)
  {
    hide ToMap, Derived, Laid;
    LaidMore(g, merges, rows);
    assert merges + [] == merges;
  }

  // ---------------------------------------------------------------- every run

  lemma ListKeeps(w: World, c: Calendar, s: Step)
    requires WorldOk(w, c) && (s.ListDays? || s.ReadDay? || s.Abandon?)
    ensures WorldOk(Next(w, c, s), c)
  {
    hide ObjectsOk, StatusOk, MergedOk, Sorted, PeriodStart, AllObjectsOk, RebuildOk, MergesOf, ReadyDays;
    var next := Next(w, c, s);
    SameObjects(w, next);
    SameGrows(w.archive, next.archive);
    forall p: Period, d: int ensures MergedOk(next, c, p, d) {
      SameMergesOf(w, next, p, d);
      MergedMore(w, next, c, p, d);
    }
    forall id | id in next.rebuilds ensures RebuildOk(next, next.rebuilds[id]) {
      if id in w.rebuilds {
        RebuildMore(w, next, w.rebuilds[id]);
      }
      if s.ListDays? && id == s.id && id !in w.rebuilds {
        ListedOk(next, s.p, s.start);
      } else if s.ReadDay? && id == s.id && id in w.rebuilds && s.day in w.rebuilds[id].days && s.day !in w.rebuilds[id].read {
        ReadOk(next, w.rebuilds[id], s.day);
      }
    }
  }

  lemma ListedOk(w: World, p: Period, start: int)
    ensures RebuildOk(w, Rebuilding(p, start, ReadyDays(w.archive, p, start), map[]))
  {
    hide PeriodStart;
  }

  lemma ReadOk(w: World, r: Rebuilding, day: nat)
    requires RebuildOk(w, r) && ObjectsOk(w.archive) && day in r.days
    ensures RebuildOk(w, r.(read := r.read[day := RowsAt(w.archive.minutes, day)]))
  {
    hide Sorted, Fits, ObjectsOk, PeriodStart, IsReady;
    RowsSorted(w.archive, day);
  }

  lemma RowsSorted(a: Archive, day: int)
    requires ObjectsOk(a)
    ensures Sorted(RowsAt(a.minutes, day)) && Fits(a, day, RowsAt(a.minutes, day))
  {
    EmptyMap();
  }

  lemma NextKeeps(w: World, c: Calendar, s: Step)
    requires WorldOk(w, c) && OwnDay(c, s)
    ensures WorldOk(Next(w, c, s), c)
  {
    hide DaysOk, AllObjectsOk, Begin, MergeDay, Rebuilt, TradeDay, Trades;
    match s
    case BeginDay(day, incoming, requireReady) =>
      if day !in w.pending {
        BeginKeeps(w, c, day, incoming, requireReady);
      }
    case MergeNext(day) =>
      if day in w.pending {
        MergeKeepsDays(w, c, day);
        MergeKeepsObjects(w, c, day);
      }
    case WriteRebuilt(id) =>
      if CanWrite(w, id) {
        RebuildKeepsDays(w, c, id);
        RebuildKeepsObjects(w, c, id);
      }
    case _ => ListKeeps(w, c, s);
  }

  lemma {:induction false} StepsKeep(w: World, c: Calendar, steps: seq<Step>)
    requires WorldOk(w, c) && forall s :: s in steps ==> OwnDay(c, s)
    ensures WorldOk(RunSteps(w, c, steps), c)
    decreases |steps|
  {
    hide WorldOk, Next, OwnDay;
    if |steps| > 0 {
      NextKeeps(w, c, steps[0]);
      StepsKeep(Next(w, c, steps[0]), c, steps[1..]);
    }
  }

  lemma StartInv(c: Calendar)
    ensures WorldOk(START, c)
  {
    hide PeriodStart;
    EmptyMap();
  }

  lemma Reachable(c: Calendar, steps: seq<Step>)
    requires forall s :: s in steps ==> OwnDay(c, s)
    ensures WorldOk(RunSteps(START, c, steps), c)
  {
    hide WorldOk, RunSteps, OwnDay;
    StartInv(c);
    StepsKeep(START, c, steps);
  }

  // ---------------------------------------------------------------- what the aggregates hold

  /**
   * In every interleaving of day writers and rebuilds, at every moment, a bucket of a 1h or 1d object is
   * there exactly when some rows of its date merged into the aggregate have it, and holds what the last
   * such rows derive for it.
   */
  lemma AlwaysLaid(c: Calendar, steps: seq<Step>, p: Period, start: int, k: int)
    requires forall s :: s in steps ==> OwnDay(c, s)
    ensures var w := RunSteps(START, c, steps);
            var rows, laid := RowsAt(w.archive.derived, (p, start)), Laid(GrainOf(p), MergesOf(w, p, TradeDay(k)));
            && Sorted(rows)
            && (k in ToMap(rows) <==> InPeriod(p, start, k) && k in laid)
            && (k in ToMap(rows) ==> ToMap(rows)[k] == laid[k])
  {
    hide RunSteps, DaysOk, OwnDay, ToMap, Laid, MergesOf, TradeDay, InPeriod, Sorted, GrainOf;
    Reachable(c, steps);
    OneObject(RunSteps(START, c, steps), p, start);
  }

  /** What was merged of the day lays to what the stored day derives. */
  ghost predicate UpToDate(w: World, p: Period, day: int) {
    Laid(GrainOf(p), MergesOf(w, p, day)) == Derived(ToMap(RowsAt(w.archive.minutes, day)), GrainOf(p))
  }

  lemma MergedKeys(w: World, c: Calendar, p: Period, day: int)
    requires DaysOk(w, c)
    ensures Laid(GrainOf(p), MergesOf(w, p, day)).Keys <= Groups(ToMap(RowsAt(w.archive.minutes, day)), GrainOf(p))
    ensures forall k :: k in Laid(GrainOf(p), MergesOf(w, p, day)) ==> TradeDay(k) == day
  {
    hide ToMap, TradeDay, Fits, Groups, GrainOf, Reached, IsReady, ObjectsOk, StatusOk, RebuildOk, Derived, MergesOf;
    assert MergedOk(w, c, p, day);
    LaidKeys(w.archive, day, GrainOf(p), MergesOf(w, p, day));
  }

  lemma StoredOfDay(a: Archive, g: Grain)
    requires ObjectsOk(a)
    ensures forall d: int :: d in a.minutes ==> OfDay(d, a.minutes[d])
    ensures forall d: int, k :: k in Derived(ToMap(RowsAt(a.minutes, d)), g) ==> TradeDay(k) == d
  {
    hide ToMap, TradeDay, Derived, Sorted;
    forall d: int, k | k in Derived(ToMap(RowsAt(a.minutes, d)), g) ensures TradeDay(k) == d {
      EmptyMap();
      DerivedOfDay(d, RowsAt(a.minutes, d), g);
    }
  }

  /** A bucket of a stored object. */
  lemma ObjectAt(w: World, c: Calendar, p: Period, start: int, k: int)
    requires WorldOk(w, c)
    ensures var rows, laid := RowsAt(w.archive.derived, (p, start)), Laid(GrainOf(p), MergesOf(w, p, TradeDay(k)));
            && Sorted(rows)
            && (k in ToMap(rows) <==> TradeDay(k) in CountedDays(w.archive, c, p, start) && k in laid)
            && (k in ToMap(rows) ==> ToMap(rows)[k] == laid[k])
  {
    hide ToMap, TradeDay, PeriodStart, GrainOf, Reached, Sorted, IsReady, Laid, MergesOf, DaysOk, CountedDays, AllObjectsOk;
    OneObject(w, p, start);
    if k in ToMap(RowsAt(w.archive.derived, (p, start))) {
      Unmerged(w, c, p, start, k);
      CountedWhen(w.archive, c, p, TradeDay(k));
    }
    if TradeDay(k) in CountedDays(w.archive, c, p, start) {
      CountedIs(w.archive, c, p, start, TradeDay(k));
    }
  }

  /** A bucket of the batch derivation. */
  lemma BatchAt(a: Archive, c: Calendar, p: Period, start: int, k: int)
    requires ObjectsOk(a)
    ensures var batch, own := BatchDerivation(a, c, p, start), Derived(ToMap(RowsAt(a.minutes, TradeDay(k))), GrainOf(p));
            && Sorted(batch)
            && (k in ToMap(batch) <==> TradeDay(k) in CountedDays(a, c, p, start) && k in own)
            && (k in ToMap(batch) ==> ToMap(batch)[k] == own[k])
  {
    hide ToMap, FromMap, TradeDay, Derived, GrainOf, Batch, Sorted, CountedDays;
    StoredOfDay(a, GrainOf(p));
    BatchDerivedByDay(a.minutes, CountedDays(a, c, p, start), GrainOf(p));
    DerivedMeaning(ToMap(Batch(a.minutes, CountedDays(a, c, p, start))), GrainOf(p));
  }

  lemma AgreesWhenUpToDate(w: World, c: Calendar, p: Period, start: int)
    requires WorldOk(w, c) && forall d: int :: d in CountedDays(w.archive, c, p, start) ==> UpToDate(w, p, d)
    ensures Agrees(w.archive, c, p, start)
  {
    hide ToMap, FromMap, TradeDay, Derived, GrainOf, Sorted, Laid, MergesOf, WorldOk, UpToDate, CountedDays, BatchDerivation, ObjectsOk;
    var rows, batch := RowsAt(w.archive.derived, (p, start)), BatchDerivation(w.archive, c, p, start);
    WorldParts(w, c);
    forall k
      ensures Sorted(rows) && Sorted(batch)
      ensures k in ToMap(rows) <==> k in ToMap(batch)
      ensures k in ToMap(rows) && k in ToMap(batch) ==> ToMap(rows)[k] == ToMap(batch)[k]
    {
      ObjectAt(w, c, p, start, k);
      BatchAt(w.archive, c, p, start, k);
      if TradeDay(k) in CountedDays(w.archive, c, p, start) {
        SameWhenUpToDate(w, p, TradeDay(k));
      }
    }
    ObjectAt(w, c, p, start, 0);
    BatchAt(w.archive, c, p, start, 0);
    assert ToMap(rows) == ToMap(batch);
    SortedIsFromMap(rows);
    SortedIsFromMap(batch);
  }

  lemma WorldParts(w: World, c: Calendar)
    requires WorldOk(w, c)
    ensures ObjectsOk(w.archive) && StatusOk(w.archive, c)
  {
  }

  lemma SameWhenUpToDate(w: World, p: Period, day: int)
    requires UpToDate(w, p, day)
    ensures Laid(GrainOf(p), MergesOf(w, p, day)) == Derived(ToMap(RowsAt(w.archive.minutes, day)), GrainOf(p))
  {
  }

  lemma CountedWhen(a: Archive, c: Calendar, p: Period, day: nat)
    requires IsReady(a, day) && Reached(c, p, day)
    ensures day in CountedDays(a, c, p, PeriodStart(p, day))
  {
    hide PeriodStart, Reached;
  }

  lemma CountedIs(a: Archive, c: Calendar, p: Period, start: int, day: int)
    requires day in CountedDays(a, c, p, start)
    ensures day >= 0 && IsReady(a, day) && PeriodStart(p, day) == start && Reached(c, p, day)
  {
    hide PeriodStart, Reached;
  }

  lemma UpToDateWhenAgrees(w: World, c: Calendar, p: Period, start: int, day: int)
    requires WorldOk(w, c) && Agrees(w.archive, c, p, start) && day in CountedDays(w.archive, c, p, start)
    ensures UpToDate(w, p, day)
  {
    hide ToMap, TradeDay, Derived, GrainOf, Sorted, Laid, MergesOf, CountedDays, BatchDerivation, ObjectsOk, DaysOk, AllObjectsOk;
    var laid, own := Laid(GrainOf(p), MergesOf(w, p, day)), Derived(ToMap(RowsAt(w.archive.minutes, day)), GrainOf(p));
    WorldParts(w, c);
    StoredOfDay(w.archive, GrainOf(p));
    MergedKeys(w, c, p, day);
    forall k
      ensures k in laid <==> k in own
      ensures k in laid && k in own ==> laid[k] == own[k]
    {
      if k in laid || k in own {
        assert TradeDay(k) == day;
        ObjectAt(w, c, p, start, k);
        BatchAt(w.archive, c, p, start, k);
      }
    }
    assert laid == own;
  }

  /** A 1h or 1d object is the batch derivation from the stored days exactly when every counted day is up to date in it. */
  lemma BatchExactlyWhen(c: Calendar, steps: seq<Step>, p: Period, start: int)
    requires forall s :: s in steps ==> OwnDay(c, s)
    ensures var w := RunSteps(START, c, steps);
            RowsAt(w.archive.derived, (p, start)) == BatchDerivation(w.archive, c, p, start)
            <==> forall d: int :: d in CountedDays(w.archive, c, p, start) ==> UpToDate(w, p, d)
  {
    hide RunSteps, OwnDay, BatchDerivation, WorldOk, UpToDate, CountedDays;
    Reachable(c, steps);
    var w := RunSteps(START, c, steps);
    if Agrees(w.archive, c, p, start) {
      forall d: int | d in CountedDays(w.archive, c, p, start) ensures UpToDate(w, p, d) {
        UpToDateWhenAgrees(w, c, p, start, d);
      }
    } else if forall d: int :: d in CountedDays(w.archive, c, p, start) ==> UpToDate(w, p, d) {
      AgreesWhenUpToDate(w, c, p, start);
    }
  }
}
