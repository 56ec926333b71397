/**
 * The stored candles of one symbol: one-minute day objects, and the 1h (month) and 1d (year) objects
 * kept up to date from them. A write of a READY day merges what the day derives into both objects;
 * this module proves that the result is always the batch derivation from the READY days up to which the
 * calendar answers.
 */
module ChartArchive {
  import opened Wrappers
  import opened IntSets
  import opened CandleRows
  import opened KrxCalendar
  import opened SessionRows

  datatype Status = Ready | Partial | Stale | NoTrade

  /** Day objects by day number; derived objects by period and its first day (1h by month, 1d by year). */
  datatype Archive = Archive(
    minutes: map<int, seq<Row>>,
    minuteStatus: map<int, Status>,
    derived: map<(Period, int), seq<Row>>,
    derivedStatus: map<(Period, int), Status>)

  const EMPTY := Archive(map[], map[], map[], map[])

  function RowsAt<K>(objects: map<K, seq<Row>>, key: K): seq<Row> {
    if key in objects then objects[key] else []
  }

  function GrainOf(p: Period): Grain {
    if p == Month then Hour else Day
  }

  function DeriveSeq(rows: seq<Row>, g: Grain): seq<Row> {
    FromMap(Derived(ToMap(rows), g))
  }

  function FilterSession(candles: seq<Row>): seq<Row> {
    if |candles| == 0 then []
    else
      var rest := FilterSession(candles[..|candles| - 1]);
      if InContinuousSession(candles[|candles| - 1].bucket) then rest + [candles[|candles| - 1]] else rest
  }

  /** The latest KST date among the rows, or the fallback when none is later. */
  function MaxTradeDay(rows: seq<Row>, fallback: int): (d: int)
    ensures d >= fallback
  {
    if |rows| == 0 then fallback
    else
      var before, last := MaxTradeDay(rows[..|rows| - 1], fallback), TradeDay(rows[|rows| - 1].bucket);
      if last > before then last else before
  }

  // ---------------------------------------------------------------- writes

  /** Merges what the minutes derive into one period object. False is the calendar's error, before any write. */
  function WritePeriod(a: Archive, c: Calendar, p: Period, tradeDay: nat, oneMinuteRows: seq<Row>): (Archive, bool) {
    var start := PeriodStart(p, tradeDay);
    var passed := ExpectedRowsInPeriod(c, p, start, MaxTradeDay(oneMinuteRows, tradeDay));
    var merged := Merge(RowsAt(a.derived, (p, start)), DeriveSeq(oneMinuteRows, GrainOf(p)));
    var corrected := ExpectedRowsInPeriod(c, p, start, MaxTradeDay(merged, tradeDay));
    if passed.None? || corrected.None? then (a, false)
    else
      var expected := if corrected.value > passed.value then corrected.value else passed.value;
      (a.(derived := a.derived[(p, start) := merged],
          derivedStatus := a.derivedStatus[(p, start) := if |merged| >= expected then Ready else Partial]), true)
  }

  function WriteAggregates(a: Archive, c: Calendar, tradeDay: nat, oneMinuteRows: seq<Row>): Archive {
    if |oneMinuteRows| == 0 then a
    else
      var (month, ok) := WritePeriod(a, c, Month, tradeDay, oneMinuteRows);
      if ok then WritePeriod(month, c, Year, tradeDay, oneMinuteRows).0 else month
  }

  function PutDay(a: Archive, day: int, rows: seq<Row>, status: Status): Archive {
    a.(minutes := a.minutes[day := rows], minuteStatus := a.minuteStatus[day := status])
  }

  function WriteDay(a: Archive, c: Calendar, day: nat, incoming: seq<Row>, requireReady: bool): Archive {
    var merged := Merge(RowsAt(a.minutes, day), incoming);
    match ExpectedOneMinuteRows(c, day)
    case None => a
    case Some(expected) =>
      if |merged| >= expected then WriteAggregates(PutDay(a, day, merged, Ready), c, day, merged)
      else if requireReady then a
      else PutDay(a, day, merged, Partial)
  }

  // ---------------------------------------------------------------- READY days and the batch they make

  function ReadyDays(a: Archive, p: Period, start: int): (s: set<int>)
    ensures forall d: int :: d in s <==> d >= 0 && d in a.minuteStatus && a.minuteStatus[d] == Ready && PeriodStart(p, d) == start
  {
    set d: int | d in a.minuteStatus && d >= 0 && a.minuteStatus[d] == Ready && PeriodStart(p, d) == start
  }

  /** The day objects of a set of days, one after another in date order. */
  function Batch(minutes: map<int, seq<Row>>, days: set<int>): seq<Row>
    decreases |days|
  {
    if days == {} then [] else Batch(minutes, days - {MaxOf(days)}) + RowsAt(minutes, MaxOf(days))
  }

  /** The READY days of a period up to which the calendar can count. */
  function CountedDays(a: Archive, c: Calendar, p: Period, start: int): (s: set<int>)
    ensures forall d: int :: d in s <==> d in ReadyDays(a, p, start) && Reached(c, p, d)
  {
    set d: int | d in ReadyDays(a, p, start) && Reached(c, p, d)
  }

  /** What a period object would be if it were derived at once from those days. */
  function BatchDerivation(a: Archive, c: Calendar, p: Period, start: int): seq<Row> {
    DeriveSeq(Batch(a.minutes, CountedDays(a, c, p, start)), GrainOf(p))
  }

  function MarkedStale(a: Archive, day: nat): Archive {
    a.(derivedStatus := map key | key in a.derivedStatus ::
         if a.derivedStatus[key] == Ready && key.1 == PeriodStart(key.0, day) then Stale else a.derivedStatus[key])
  }

  /** Rebuilds one listed period object from the READY days of the period, unless they hold nothing. False is the calendar's error. */
  function Rebuild(a: Archive, c: Calendar, p: Period, start: int): (Archive, bool) {
    var days := ReadyDays(a, p, start);
    var rows := Batch(a.minutes, days);
    if days == {} || |rows| == 0 then (a, true)
    else WritePeriod(a, c, p, MaxTradeDay(rows, MaxOf(days)), rows)
  }

  datatype Op =
    | ArchiveSymbol(day: nat, candles: seq<Row>)
    | Backfill(day: nat, candles: seq<Row>, requireReady: bool)
    | MarkDerivedStale(day: nat)
    | RebuildStale(p: Period, start: int)

  function Apply(a: Archive, c: Calendar, op: Op): Archive {
    match op
    case ArchiveSymbol(day, candles) =>
      (match IsTradingDay(c, day)
       case None => a
       case Some(false) => a.(minuteStatus := a.minuteStatus[day := NoTrade])
       case Some(true) => WriteDay(a, c, day, FilterSession(candles), false))
    case Backfill(day, candles, requireReady) =>
      if IsTradingDay(c, day) != Some(true) || FilterSession(candles) == [] then a
      else WriteDay(a, c, day, FilterSession(candles), requireReady)
    case MarkDerivedStale(day) => MarkedStale(a, day)
    case RebuildStale(p, start) => Rebuild(a, c, p, start).0
  }

  function Run(a: Archive, c: Calendar, ops: seq<Op>): Archive
    decreases |ops|
  {
    if |ops| == 0 then a else Run(Apply(a, c, ops[0]), c, ops[1..])
  }

  // ---------------------------------------------------------------- invariant

  /** The candles of a write belong to the date it is for. */
  predicate OwnDate(op: Op) {
    (op.ArchiveSymbol? || op.Backfill?) ==> forall r :: r in op.candles ==> TradeDay(r.bucket) == op.day
  }

  predicate OfDay(day: int, rows: seq<Row>) {
    forall k :: k in ToMap(rows) ==> TradeDay(k) == day
  }

  ghost predicate ObjectsOk(a: Archive) {
    forall d: int :: d in a.minutes ==> Sorted(a.minutes[d]) && OfDay(d, a.minutes[d])
  }

  /** A day is READY exactly when it trades and has the rows its session counts. */
  ghost predicate StatusOk(a: Archive, c: Calendar) {
    && (forall d: int :: d in a.minutes ==>
          (d >= 0 && Trades(c, d) && d in a.minuteStatus
           && (a.minuteStatus[d] == Ready <==> |a.minutes[d]| >= SessionCloseMinute(c, d) - OPEN_MINUTE)))
    && (forall d: int :: d in a.minuteStatus && a.minuteStatus[d] == Ready ==> d in a.minutes)
  }

  ghost predicate Agrees(a: Archive, c: Calendar, p: Period, start: int) {
    RowsAt(a.derived, (p, start)) == BatchDerivation(a, c, p, start)
  }

  ghost predicate Inv(a: Archive, c: Calendar) {
    ObjectsOk(a) && StatusOk(a, c) && forall p, start :: Agrees(a, c, p, start)
  }

  // ---------------------------------------------------------------- batches by bucket

  lemma {:induction false} ToMapConcat(x: seq<Row>, y: seq<Row>)
    ensures ToMap(x + y) == ToMap(x) + ToMap(y)
    decreases |y|
  {
    hide ToMap;
    if |y| == 0 {
      EmptyMap();
      assert x + y == x;
    } else {
      var rest, last := y[..|y| - 1], y[|y| - 1];
      ToMapConcat(x, rest);
      ToMapSnoc(x + rest, last);
      ToMapSnoc(rest, last);
      assert x + y == (x + rest) + [last] && y == rest + [last];
    }
  }

  /** A bucket is in the batch exactly when its date is one of the days and it is in that day's object. */
  lemma {:induction false} BatchByBucket(minutes: map<int, seq<Row>>, days: set<int>)
    requires forall d: int :: d in minutes ==> OfDay(d, minutes[d])
    ensures forall k :: k in ToMap(Batch(minutes, days)) <==> TradeDay(k) in days && k in ToMap(RowsAt(minutes, TradeDay(k)))
    ensures forall k :: k in ToMap(Batch(minutes, days)) ==> ToMap(Batch(minutes, days))[k] == ToMap(RowsAt(minutes, TradeDay(k)))[k]
    decreases |days|
  {
    hide ToMap, TradeDay;
    EmptyMap();
    if days != {} {
      var top := MaxOf(days);
      BatchByBucket(minutes, days - {top});
      ToMapConcat(Batch(minutes, days - {top}), RowsAt(minutes, top));
    }
  }

  lemma {:induction false} BatchSame(m: map<int, seq<Row>>, n: map<int, seq<Row>>, days: set<int>)
    requires forall d: int :: d in days ==> RowsAt(m, d) == RowsAt(n, d)
    ensures Batch(m, days) == Batch(n, days)
    decreases |days|
  {
    if days != {} {
      BatchSame(m, n, days - {MaxOf(days)});
    }
  }

  /** The batch is in bucket order, one row per bucket. */
  lemma {:induction false} BatchSorted(a: Archive, days: set<int>)
    requires ObjectsOk(a)
    ensures Sorted(Batch(a.minutes, days)) && Distinct(Batch(a.minutes, days))
    decreases |days|
  {
    hide ToMap, TradeDay;
    if days != {} {
      var top := MaxOf(days);
      var rest := days - {top};
      BatchSorted(a, rest);
      BatchByBucket(a.minutes, rest);
      var x, y := Batch(a.minutes, rest), RowsAt(a.minutes, top);
      ToMapRows(x);
      ToMapRows(y);
      forall i, j | 0 <= i < |x| && 0 <= j < |y| ensures x[i].bucket < y[j].bucket {
        assert x[i] in x && y[j] in y;
        EarlierDate(x[i].bucket, y[j].bucket);
      }
    }
  }

  lemma EarlierDate(a: int, b: int)
    requires TradeDay(a) < TradeDay(b)
    ensures a < b
  {
  }

  lemma GroupKeepsDate(g: Grain, k: int)
    ensures TradeDay(GroupOf(g, k)) == TradeDay(k)
  {
    HourInOneDay(k);
  }

  lemma DatesApart(x: map<int, Row>, y: map<int, Row>, g: Grain, day: int)
    requires (forall k :: k in x ==> TradeDay(k) != day) && (forall k :: k in y ==> TradeDay(k) == day)
    ensures Groups(x, g) !! Groups(y, g)
  {
    hide TradeDay, GroupOf;
    forall b | b in Groups(x, g) ensures TradeDay(b) != day {
      var k :| k in x && GroupOf(g, k) == b;
      GroupKeepsDate(g, k);
    }
    forall b | b in Groups(y, g) ensures TradeDay(b) == day {
      var k :| k in y && GroupOf(g, k) == b;
      GroupKeepsDate(g, k);
    }
  }

  /** Replacing what one date holds by more buckets of that date derives the old rows overwritten by the new. */
  lemma DateReplaced(before: map<int, Row>, after: map<int, Row>, m: map<int, Row>, g: Grain, day: int)
    requires forall k :: k in m ==> TradeDay(k) == day
    requires forall k :: k in before && TradeDay(k) == day ==> k in m
    requires after == before + m
    ensures Derived(after, g) == Derived(before, g) + Derived(m, g)
  {
    hide TradeDay, GroupOf, Derived;
    var rest := map k | k in before && TradeDay(k) != day :: before[k];
    var replaced := map k | k in before && TradeDay(k) == day :: before[k];
    assert before == rest + replaced && after == rest + m;
    DatesApart(rest, replaced, g, day);
    DatesApart(rest, m, g, day);
    DerivedUnion(rest, replaced, g);
    DerivedUnion(rest, m, g);
    GroupsGrow(replaced, m, g);
    Overwritten(Derived(rest, g), Derived(replaced, g), Derived(m, g));
  }

  lemma GroupsGrow(x: map<int, Row>, y: map<int, Row>, g: Grain)
    requires x.Keys <= y.Keys
    ensures Groups(x, g) <= Groups(y, g)
  {
    hide GroupOf;
  }

  lemma Overwritten(x: map<int, Row>, y: map<int, Row>, z: map<int, Row>)
    requires y.Keys <= z.Keys
    ensures (x + y) + z == x + z
  {
  }

  // ---------------------------------------------------------------- one day rewritten

  lemma MergedDay(a: Archive, day: int, incoming: seq<Row>)
    requires ObjectsOk(a) && forall r :: r in incoming ==> TradeDay(r.bucket) == day
    ensures var merged := Merge(RowsAt(a.minutes, day), incoming);
            && Sorted(merged) && OfDay(day, merged)
            && ToMap(RowsAt(a.minutes, day)).Keys <= ToMap(merged).Keys
            && |merged| == |ToMap(merged)| >= |RowsAt(a.minutes, day)|
  {
    hide ToMap, TradeDay, Merge, FromMap;
    var existing := RowsAt(a.minutes, day);
    var merged := Merge(existing, incoming);
    MergeMeaning(existing, incoming);
    ToMapRows(incoming);
    EmptyMap();
    assert OfDay(day, existing);
    assert ToMap(merged).Keys == ToMap(existing).Keys + ToMap(incoming).Keys;
    SubsetSize(ToMap(existing).Keys, ToMap(merged).Keys);
    SortedSize(existing);
    SortedSize(merged);
  }

  lemma SortedSize(rows: seq<Row>)
    requires Sorted(rows)
    ensures |rows| == |ToMap(rows)| == |ToMap(rows).Keys|
  {
    hide ToMap, FromMap;
    SortedIsFromMap(rows);
  }

  lemma BatchReplaced(m: map<int, seq<Row>>, days: set<int>, day: int, merged: seq<Row>)
    requires (forall d: int :: d in m ==> OfDay(d, m[d])) && OfDay(day, merged)
    requires day in days ==> ToMap(RowsAt(m, day)).Keys <= ToMap(merged).Keys
    ensures ToMap(Batch(m[day := merged], days + {day})) == ToMap(Batch(m, days)) + ToMap(merged)
    ensures forall k :: k in ToMap(Batch(m, days)) && TradeDay(k) == day ==> k in ToMap(merged)
  {
    hide ToMap, TradeDay, Batch;
    var n := m[day := merged];
    BatchByBucket(m, days);
    BatchByBucket(n, days + {day});
    var before, after, own := ToMap(Batch(m, days)), ToMap(Batch(n, days + {day})), ToMap(merged);
    forall k
      ensures k in after <==> k in before || k in own
      ensures k in after ==> after[k] == (if k in own then own[k] else before[k])
    {
      assert RowsAt(n, TradeDay(k)) == if TradeDay(k) == day then merged else RowsAt(m, TradeDay(k));
      assert k in own ==> TradeDay(k) == day;
    }
  }

  /** The batch derivation of a period the calendar reaches the day in, once the day is READY with its merged rows. */
  lemma ReadyDayBatch(a: Archive, c: Calendar, p: Period, day: nat, merged: seq<Row>)
    requires ObjectsOk(a) && Sorted(merged) && OfDay(day, merged) && Reached(c, p, day)
    requires day in a.minuteStatus && a.minuteStatus[day] == Ready ==> ToMap(RowsAt(a.minutes, day)).Keys <= ToMap(merged).Keys
    requires Agrees(a, c, p, PeriodStart(p, day))
    ensures BatchDerivation(PutDay(a, day, merged, Ready), c, p, PeriodStart(p, day))
            == Merge(RowsAt(a.derived, (p, PeriodStart(p, day))), DeriveSeq(merged, GrainOf(p)))
  {
    hide ToMap, FromMap, TradeDay, Derived, PeriodStart, GrainOf, Batch, Reached;
    var start, b := PeriodStart(p, day), PutDay(a, day, merged, Ready);
    var days := CountedDays(a, c, p, start);
    assert CountedDays(b, c, p, start) == days + {day};
    BatchReplaced(a.minutes, days, day, merged);
    var before := ToMap(Batch(a.minutes, days));
    DateReplaced(before, before + ToMap(merged), ToMap(merged), GrainOf(p), day);
    DerivedMeaning(before, GrainOf(p));
    DerivedMeaning(ToMap(merged), GrainOf(p));
  }

  lemma DerivedMeaning(m: map<int, Row>, g: Grain)
    ensures ToMap(FromMap(Derived(m, g))) == Derived(m, g) && Sorted(FromMap(Derived(m, g)))
  {
    hide GroupOf, ToMap, FromMap;
    FromMapSorted(Derived(m, g));
  }

  /** Other periods, periods the calendar does not reach the day in, and days not READY before or after, keep their batch. */
  lemma OtherBatch(a: Archive, c: Calendar, p: Period, start: int, day: nat, rows: seq<Row>, status: Status)
    requires PeriodStart(p, day) != start || !Reached(c, p, day)
             || (status != Ready && (day in a.minuteStatus ==> a.minuteStatus[day] != Ready))
    ensures BatchDerivation(PutDay(a, day, rows, status), c, p, start) == BatchDerivation(a, c, p, start)
  {
    hide PeriodStart, DeriveSeq, GrainOf, Reached;
    var b := PutDay(a, day, rows, status);
    assert CountedDays(b, c, p, start) == CountedDays(a, c, p, start);
    BatchSame(a.minutes, b.minutes, CountedDays(a, c, p, start));
  }

  /** A derived row has the date of some row it came from. */
  lemma SourceOfRow(m: map<int, Row>, g: Grain, r: Row) returns (k: int)
    requires r in FromMap(Derived(m, g))
    ensures k in m && TradeDay(k) == TradeDay(r.bucket)
  {
    hide ToMap, FromMap, TradeDay, GroupOf, Summary, Part;
    DerivedMeaning(m, g);
    ToMapRows(FromMap(Derived(m, g)));
    assert r.bucket in Groups(m, g);
    k :| k in m && GroupOf(g, k) == r.bucket;
    GroupKeepsDate(g, k);
  }

  /** The rows of a batch derivation are of counted days, so the calendar can count up to the latest of them. */
  lemma BatchReached(a: Archive, c: Calendar, p: Period, day: nat)
    requires ObjectsOk(a) && Reached(c, p, day)
    ensures Answers(c, PeriodStart(p, day), MaxTradeDay(BatchDerivation(a, c, p, PeriodStart(p, day)), day))
  {
    hide ToMap, FromMap, TradeDay, Derived, PeriodStart, GrainOf, Batch, Answers, MaxTradeDay;
    var start := PeriodStart(p, day);
    var rows := BatchDerivation(a, c, p, start);
    MaxTradeDayIs(rows, day);
    if MaxTradeDay(rows, day) != day {
      var r :| r in rows && TradeDay(r.bucket) == MaxTradeDay(rows, day);
      var k := SourceOfRow(ToMap(Batch(a.minutes, CountedDays(a, c, p, start))), GrainOf(p), r);
      BatchByBucket(a.minutes, CountedDays(a, c, p, start));
    }
  }

  /** A period object is written exactly when the calendar reaches the date the write counts up to. */
  lemma WritePeriodEffect(a: Archive, c: Calendar, p: Period, tradeDay: nat, rows: seq<Row>)
    requires ObjectsOk(a) && MaxTradeDay(rows, tradeDay) == tradeDay
    requires Reached(c, p, tradeDay) ==>
               Merge(RowsAt(a.derived, (p, PeriodStart(p, tradeDay))), DeriveSeq(rows, GrainOf(p))) == BatchDerivation(a, c, p, PeriodStart(p, tradeDay))
    ensures var (b, ok) := WritePeriod(a, c, p, tradeDay, rows);
            var key := (p, PeriodStart(p, tradeDay));
            && (ok <==> Reached(c, p, tradeDay)) && (!ok ==> b == a)
            && b.minutes == a.minutes && b.minuteStatus == a.minuteStatus
            && (ok ==> b.derived == a.derived[key := BatchDerivation(a, c, p, key.1)])
            && (ok ==> key in b.derivedStatus && b.derivedStatus == a.derivedStatus[key := b.derivedStatus[key]])
  {
    hide ExpectedRowsInPeriod, PeriodStart, Merge, DeriveSeq, MaxTradeDay, BatchDerivation, Answers, ObjectsOk;
    var start := PeriodStart(p, tradeDay);
    ExpectedExactlyWhen(c, p, start, tradeDay);
    if Reached(c, p, tradeDay) {
      BatchReached(a, c, p, tradeDay);
      ExpectedExactlyWhen(c, p, start, MaxTradeDay(BatchDerivation(a, c, p, start), tradeDay));
    }
  }

  lemma OneDate(day: int, rows: seq<Row>)
    requires OfDay(day, rows)
    ensures MaxTradeDay(rows, day) == day
  {
    hide ToMap, TradeDay, MaxTradeDay;
    MaxTradeDayIs(rows, day);
    ToMapRows(rows);
  }

  /** What a READY write merges into a period the calendar reaches is the new batch derivation of the period. */
  ghost predicate MergesToBatch(a: Archive, c: Calendar, p: Period, day: nat, rows: seq<Row>) {
    Reached(c, p, day) ==>
      Merge(RowsAt(a.derived, (p, PeriodStart(p, day))), DeriveSeq(rows, GrainOf(p))) == BatchDerivation(a, c, p, PeriodStart(p, day))
  }

  /** One period object of the day written, and nothing else, exactly when the calendar reaches the day. */
  ghost predicate Written(before: Archive, after: Archive, c: Calendar, p: Period, day: nat) {
    var key := (p, PeriodStart(p, day));
    && after.minutes == before.minutes && after.minuteStatus == before.minuteStatus
    && (forall k :: k != key || !Reached(c, p, day) ==>
          RowsAt(after.derived, k) == RowsAt(before.derived, k) && (k in after.derivedStatus <==> k in before.derivedStatus)
          && (k in before.derivedStatus ==> after.derivedStatus[k] == before.derivedStatus[k]))
    && (Reached(c, p, day) ==> RowsAt(after.derived, key) == BatchDerivation(before, c, p, key.1) && key in after.derivedStatus)
  }

  lemma PeriodWritten(a: Archive, c: Calendar, p: Period, day: nat, rows: seq<Row>)
    requires ObjectsOk(a) && MaxTradeDay(rows, day) == day && MergesToBatch(a, c, p, day, rows)
    ensures Written(a, WritePeriod(a, c, p, day, rows).0, c, p, day)
    ensures WritePeriod(a, c, p, day, rows).1 <==> Reached(c, p, day)
  {
    hide WritePeriod, Merge, DeriveSeq, BatchDerivation, PeriodStart, Reached, ObjectsOk, MaxTradeDay;
    WritePeriodEffect(a, c, p, day, rows);
  }

  lemma SameBatch(b: Archive, y: Archive, c: Calendar, p: Period, start: int)
    requires b.minutes == y.minutes && b.minuteStatus == y.minuteStatus
    ensures BatchDerivation(y, c, p, start) == BatchDerivation(b, c, p, start)
  {
    hide PeriodStart, DeriveSeq, Batch, Reached;
    assert CountedDays(b, c, p, start) == CountedDays(y, c, p, start);
  }

  /** The writes that follow a READY day: the month object, then the year object, each if the calendar reaches the day in it. */
  lemma AggregatesWritten(b: Archive, c: Calendar, day: nat, rows: seq<Row>)
    requires ObjectsOk(b) && MaxTradeDay(rows, day) == day && |rows| > 0
    requires MergesToBatch(b, c, Month, day, rows) && MergesToBatch(b, c, Year, day, rows)
    ensures var m := WritePeriod(b, c, Month, day, rows).0;
            Written(b, m, c, Month, day) && Written(m, WriteAggregates(b, c, day, rows), c, Year, day)
            && (Reached(c, Year, day) ==> WriteAggregates(b, c, day, rows) == WritePeriod(m, c, Year, day, rows).0)
  {
    hide WritePeriod, Merge, DeriveSeq, BatchDerivation, PeriodStart, Reached, MaxTradeDay;
    var (m, ok) := WritePeriod(b, c, Month, day, rows);
    PeriodWritten(b, c, Month, day, rows);
    YearReachesMonth(c, day);
    SameBatch(b, m, c, Year, PeriodStart(Year, day));
    if ok {
      PeriodWritten(m, c, Year, day, rows);
    }
  }

  lemma ReadyWriteMerges(a: Archive, c: Calendar, day: nat, merged: seq<Row>, p: Period)
    requires Inv(a, c) && Sorted(merged) && OfDay(day, merged)
    requires ToMap(RowsAt(a.minutes, day)).Keys <= ToMap(merged).Keys
    ensures MergesToBatch(PutDay(a, day, merged, Ready), c, p, day, merged)
  {
    hide ToMap, PeriodStart, Merge, DeriveSeq, BatchDerivation, Reached, StatusOk, Sorted, OfDay;
    assert Agrees(a, c, p, PeriodStart(p, day));
    if Reached(c, p, day) {
      ReadyDayBatch(a, c, p, day, merged);
    }
  }

  lemma PutDayOk(a: Archive, day: int, rows: seq<Row>, status: Status)
    requires ObjectsOk(a) && Sorted(rows) && OfDay(day, rows)
    ensures ObjectsOk(PutDay(a, day, rows, status))
  {
    hide Sorted, OfDay;
  }

  /** A READY write leaves every period object equal to the batch derivation of the days the calendar counts up to. */
  lemma ReadyWriteAgrees(a: Archive, c: Calendar, day: nat, merged: seq<Row>, p: Period, start: int)
    requires Inv(a, c) && Sorted(merged) && OfDay(day, merged)
    requires ToMap(RowsAt(a.minutes, day)).Keys <= ToMap(merged).Keys
    ensures Agrees(WriteAggregates(PutDay(a, day, merged, Ready), c, day, merged), c, p, start)
  {
    hide ToMap, PeriodStart, Merge, DeriveSeq, WritePeriod, BatchDerivation, CountedDays, Reached, MergesToBatch, StatusOk, Sorted, OfDay, MaxTradeDay;
    var b := PutDay(a, day, merged, Ready);
    assert Agrees(a, c, p, start) && Agrees(a, c, p, PeriodStart(p, day));
    if |merged| == 0 {
      EmptyDayAgrees(a, c, day, p, start);
    } else {
      ReadyWriteMerges(a, c, day, merged, Month);
      ReadyWriteMerges(a, c, day, merged, Year);
      PutDayOk(a, day, merged, Ready);
      OneDate(day, merged);
      AggregatesWritten(b, c, day, merged);
      var m, y := WritePeriod(b, c, Month, day, merged).0, WriteAggregates(b, c, day, merged);
      SameBatch(b, m, c, p, start);
      SameBatch(b, y, c, p, start);
      if start != PeriodStart(p, day) || !Reached(c, p, day) {
        OtherBatch(a, c, p, start, day, merged, Ready);
      }
    }
  }

  lemma EmptyDayAgrees(a: Archive, c: Calendar, day: nat, p: Period, start: int)
    requires ObjectsOk(a) && Agrees(a, c, p, start) && Agrees(a, c, p, PeriodStart(p, day))
    requires ToMap(RowsAt(a.minutes, day)).Keys <= ToMap([]).Keys
    ensures Agrees(PutDay(a, day, [], Ready), c, p, start)
  {
    hide ToMap, PeriodStart, Merge, DeriveSeq, BatchDerivation, Reached;
    EmptyMap();
    if start == PeriodStart(p, day) && Reached(c, p, day) {
      ReadyDayBatch(a, c, p, day, []);
      EmptyDerives(GrainOf(p));
      BatchSortedRows(a, c, p, start);
      MergeIdempotent(RowsAt(a.derived, (p, start)), []);
    } else {
      OtherBatch(a, c, p, start, day, [], Ready);
    }
  }

  lemma BatchSortedRows(a: Archive, c: Calendar, p: Period, start: int)
    ensures Sorted(BatchDerivation(a, c, p, start))
  {
    hide ToMap, FromMap, Derived, Batch, CountedDays, GrainOf;
    DerivedMeaning(ToMap(Batch(a.minutes, CountedDays(a, c, p, start))), GrainOf(p));
  }

  lemma EmptyDerives(g: Grain)
    ensures DeriveSeq([], g) == []
  {
    EmptyMap();
    assert Groups(map[], g) == {};
  }

  // ---------------------------------------------------------------- every operation keeps the invariant

  lemma FilterKeeps(candles: seq<Row>)
    ensures forall r :: r in FilterSession(candles) <==> r in candles && InContinuousSession(r.bucket)
    decreases |candles|
  {
    hide InContinuousSession;
    if |candles| > 0 {
      FilterKeeps(candles[..|candles| - 1]);
      assert candles == candles[..|candles| - 1] + [candles[|candles| - 1]];
    }
  }

  lemma WriteKeepsDays(a: Archive, c: Calendar, p: Period, day: nat, rows: seq<Row>)
    ensures var b := WritePeriod(a, c, p, day, rows).0; b.minutes == a.minutes && b.minuteStatus == a.minuteStatus
  {
    hide ExpectedRowsInPeriod, PeriodStart, Merge, DeriveSeq, MaxTradeDay;
  }

  lemma AggregatesKeepDays(a: Archive, c: Calendar, day: nat, rows: seq<Row>)
    ensures var b := WriteAggregates(a, c, day, rows); b.minutes == a.minutes && b.minuteStatus == a.minuteStatus
  {
    hide WritePeriod;
    WriteKeepsDays(a, c, Month, day, rows);
    WriteKeepsDays(WritePeriod(a, c, Month, day, rows).0, c, Year, day, rows);
  }

  predicate IsReady(a: Archive, day: int) { day in a.minuteStatus && a.minuteStatus[day] == Ready }

  lemma PutKeepsStatus(a: Archive, c: Calendar, day: nat, rows: seq<Row>, status: Status)
    requires StatusOk(a, c) && Trades(c, day)
    requires status == Ready <==> |rows| >= SessionCloseMinute(c, day) - OPEN_MINUTE
    requires status != Ready ==> |rows| >= |RowsAt(a.minutes, day)|
    ensures StatusOk(PutDay(a, day, rows, status), c)
    ensures IsReady(a, day) ==> status == Ready || |rows| < |RowsAt(a.minutes, day)|
  {
    hide SessionCloseMinute;
  }

  lemma SameDays(a: Archive, b: Archive, c: Calendar)
    requires ObjectsOk(a) && StatusOk(a, c) && b.minutes == a.minutes && b.minuteStatus == a.minuteStatus
    ensures ObjectsOk(b) && StatusOk(b, c)
  {
    hide Sorted, OfDay, SessionCloseMinute;
  }

  lemma WriteDayKeeps(a: Archive, c: Calendar, day: nat, incoming: seq<Row>, requireReady: bool)
    requires Inv(a, c) && Trades(c, day) && forall r :: r in incoming ==> TradeDay(r.bucket) == day
    ensures Inv(WriteDay(a, c, day, incoming, requireReady), c)
  {
    hide ToMap, TradeDay, PeriodStart, Merge, DeriveSeq, WriteAggregates, BatchDerivation, SessionCloseMinute, Agrees, Sorted, OfDay;
    hide ObjectsOk, StatusOk;
    var merged := Merge(RowsAt(a.minutes, day), incoming);
    MergedDay(a, day, incoming);
    var expected := SessionCloseMinute(c, day) - OPEN_MINUTE;
    assert ExpectedOneMinuteRows(c, day) == Some(expected);
    PutDayOk(a, day, merged, if |merged| >= expected then Ready else Partial);
    PutKeepsStatus(a, c, day, merged, if |merged| >= expected then Ready else Partial);
    if |merged| >= expected {
      var b := PutDay(a, day, merged, Ready);
      AggregatesKeepDays(b, c, day, merged);
      SameDays(b, WriteAggregates(b, c, day, merged), c);
      forall p, start ensures Agrees(WriteAggregates(b, c, day, merged), c, p, start) {
        ReadyWriteAgrees(a, c, day, merged, p, start);
      }
    } else if !requireReady {
      forall p, start ensures Agrees(PutDay(a, day, merged, Partial), c, p, start) {
        PartialWriteAgrees(a, c, day, merged, p, start);
      }
    }
  }

  lemma PartialWriteAgrees(a: Archive, c: Calendar, day: nat, merged: seq<Row>, p: Period, start: int)
    requires Agrees(a, c, p, start) && (day in a.minuteStatus ==> a.minuteStatus[day] != Ready)
    ensures Agrees(PutDay(a, day, merged, Partial), c, p, start)
  {
    hide BatchDerivation, PeriodStart, Reached;
    OtherBatch(a, c, p, start, day, merged, Partial);
  }

  lemma NoTradeKeeps(a: Archive, c: Calendar, day: nat)
    requires Inv(a, c) && !Trades(c, day)
    ensures Inv(a.(minuteStatus := a.minuteStatus[day := NoTrade]), c)
  {
    hide DeriveSeq, Batch, PeriodStart, Trades, SessionCloseMinute, Reached;
    var b := a.(minuteStatus := a.minuteStatus[day := NoTrade]);
    forall p, start ensures Agrees(b, c, p, start) {
      assert Agrees(a, c, p, start);
      assert CountedDays(b, c, p, start) == CountedDays(a, c, p, start);
    }
  }

  lemma MarkStaleKeeps(a: Archive, c: Calendar, day: nat)
    requires Inv(a, c)
    ensures Inv(MarkedStale(a, day), c)
  {
    hide BatchDerivation, PeriodStart, Trades, SessionCloseMinute;
    var b := MarkedStale(a, day);
    forall p, start ensures Agrees(b, c, p, start) {
      assert Agrees(a, c, p, start);
      SameBatch(a, b, c, p, start);
    }
  }

  /** If the calendar reaches the latest READY day of a period, it reaches them all. */
  lemma AllCounted(a: Archive, c: Calendar, p: Period, start: int)
    requires ReadyDays(a, p, start) != {} && Reached(c, p, MaxOf(ReadyDays(a, p, start)))
    ensures CountedDays(a, c, p, start) == ReadyDays(a, p, start)
  {
    hide PeriodStart, Reached;
    var days := ReadyDays(a, p, start);
    forall d: int | d in days ensures Reached(c, p, d) {
      ReachedEarlier(c, p, d, MaxOf(days));
    }
  }

  /** The date a rebuild passes on is the latest READY day, so it writes the object it set out to rebuild. */
  lemma RebuildDay(a: Archive, p: Period, start: int)
    requires ObjectsOk(a) && ReadyDays(a, p, start) != {}
    ensures var days := ReadyDays(a, p, start);
            MaxTradeDay(Batch(a.minutes, days), MaxOf(days)) == MaxOf(days) && PeriodStart(p, MaxOf(days)) == start
  {
    hide ToMap, TradeDay, PeriodStart, Batch;
    var days := ReadyDays(a, p, start);
    var rows := Batch(a.minutes, days);
    BatchByBucket(a.minutes, days);
    ToMapRows(rows);
    MaxTradeDayIs(rows, MaxOf(days));
  }

  lemma {:induction false} MaxTradeDayIs(rows: seq<Row>, fallback: int)
    ensures var d := MaxTradeDay(rows, fallback);
            && (forall r :: r in rows ==> TradeDay(r.bucket) <= d)
            && (d == fallback || exists r :: r in rows && TradeDay(r.bucket) == d)
    decreases |rows|
  {
    hide TradeDay;
    if |rows| > 0 {
      MaxTradeDayIs(rows[..|rows| - 1], fallback);
      assert rows == rows[..|rows| - 1] + [rows[|rows| - 1]];
    }
  }

  /** What a rebuild merges into the object is what the object already holds. */
  lemma RebuildMerges(a: Archive, c: Calendar, p: Period, start: int)
    requires Inv(a, c) && ReadyDays(a, p, start) != {}
    ensures var days := ReadyDays(a, p, start); MergesToBatch(a, c, p, MaxOf(days), Batch(a.minutes, days))
  {
    hide Merge, DeriveSeq, Batch, ObjectsOk, StatusOk, PeriodStart, Reached;
    if Reached(c, p, MaxOf(ReadyDays(a, p, start))) {
      AllCounted(a, c, p, start);
      assert Agrees(a, c, p, start);
      BatchSortedRows(a, c, p, start);
      MergeIdempotent(RowsAt(a.derived, (p, start)), []);
    }
  }

  /** A rebuild either raises the calendar's error, or rewrites a period object with the rows it already has. */
  lemma RebuildKeepsRows(a: Archive, c: Calendar, p: Period, start: int)
    requires Inv(a, c)
    ensures var (b, ok) := Rebuild(a, c, p, start);
            && b.minutes == a.minutes && b.minuteStatus == a.minuteStatus && (!ok ==> b == a)
            && forall q, s :: RowsAt(b.derived, (q, s)) == RowsAt(a.derived, (q, s))
  {
    hide ToMap, TradeDay, PeriodStart, Merge, DeriveSeq, WritePeriod, Sorted, BatchDerivation, Batch, Reached, MergesToBatch, StatusOk;
    var days := ReadyDays(a, p, start);
    if days != {} && |Batch(a.minutes, days)| != 0 {
      RebuildDay(a, p, start);
      RebuildMerges(a, c, p, start);
      RebuildWrites(a, c, p, start);
      assert Agrees(a, c, p, start);
    }
  }

  lemma RebuildWrites(a: Archive, c: Calendar, p: Period, start: int)
    requires ObjectsOk(a) && ReadyDays(a, p, start) != {}
    requires var days := ReadyDays(a, p, start); MergesToBatch(a, c, p, MaxOf(days), Batch(a.minutes, days))
    ensures var days := ReadyDays(a, p, start);
            var (b, ok) := WritePeriod(a, c, p, MaxOf(days), Batch(a.minutes, days));
            Written(a, b, c, p, MaxOf(days)) && (!ok ==> b == a) && (ok <==> Reached(c, p, MaxOf(days)))
  {
    hide ToMap, TradeDay, PeriodStart, Merge, DeriveSeq, WritePeriod, BatchDerivation, Batch, Reached, ObjectsOk;
    var days := ReadyDays(a, p, start);
    RebuildDay(a, p, start);
    PeriodWritten(a, c, p, MaxOf(days), Batch(a.minutes, days));
    WritePeriodEffect(a, c, p, MaxOf(days), Batch(a.minutes, days));
  }

  lemma RebuildKeeps(a: Archive, c: Calendar, p: Period, start: int)
    requires Inv(a, c)
    ensures Inv(Rebuild(a, c, p, start).0, c)
  {
    hide BatchDerivation, PeriodStart, Trades, SessionCloseMinute, Rebuild;
    RebuildKeepsRows(a, c, p, start);
    var b := Rebuild(a, c, p, start).0;
    forall q, s ensures Agrees(b, c, q, s) {
      assert Agrees(a, c, q, s);
      SameBatch(a, b, c, q, s);
    }
  }

  lemma ApplyKeeps(a: Archive, c: Calendar, op: Op)
    requires Inv(a, c) && OwnDate(op)
    ensures Inv(Apply(a, c, op), c)
  {
    hide Inv, WriteDay, MarkedStale, Rebuild, TradeDay, IsTradingDay, FilterSession;
    match op {
      case ArchiveSymbol(day, candles) =>
        FilterKeeps(candles);
        if IsTradingDay(c, day) == Some(true) {
          WriteDayKeeps(a, c, day, FilterSession(candles), false);
        } else if IsTradingDay(c, day) == Some(false) {
          NoTradeKeeps(a, c, day);
        }
      case Backfill(day, candles, requireReady) =>
        FilterKeeps(candles);
        if IsTradingDay(c, day) == Some(true) {
          WriteDayKeeps(a, c, day, FilterSession(candles), requireReady);
        }
      case MarkDerivedStale(day) => MarkStaleKeeps(a, c, day);
      case RebuildStale(p, start) => RebuildKeeps(a, c, p, start);
    }
  }

  lemma {:induction false} RunKeeps(a: Archive, c: Calendar, ops: seq<Op>)
    requires Inv(a, c) && forall op :: op in ops ==> OwnDate(op)
    ensures Inv(Run(a, c, ops), c)
    decreases |ops|
  {
    hide Inv, Apply, OwnDate;
    if |ops| > 0 {
      ApplyKeeps(a, c, ops[0]);
      RunKeeps(Apply(a, c, ops[0]), c, ops[1..]);
    }
  }

  lemma EmptyInv(c: Calendar)
    ensures Inv(EMPTY, c)
  {
    hide PeriodStart, DeriveSeq, Reached;
    forall p, start ensures Agrees(EMPTY, c, p, start) {
      EmptyDerives(GrainOf(p));
      assert CountedDays(EMPTY, c, p, start) == {};
    }
  }

  // ---------------------------------------------------------------- what every run leaves

  /**
   * In every run of archive, backfill, stale-marking and rebuild operations, for every calendar, with
   * days in any order and archived any number of times, every 1h and 1d object is the batch derivation
   * from the one-minute rows of exactly the READY days up to which the calendar answers.
   */
  lemma DerivedIsBatch(c: Calendar, ops: seq<Op>, p: Period, start: int)
    requires forall op :: op in ops ==> OwnDate(op)
    ensures var a := Run(EMPTY, c, ops);
            RowsAt(a.derived, (p, start)) == DeriveSeq(Batch(a.minutes, CountedDays(a, c, p, start)), GrainOf(p))
  {
    hide Run, ObjectsOk, StatusOk, OwnDate;
    EmptyInv(c);
    RunKeeps(EMPTY, c, ops);
    assert Agrees(Run(EMPTY, c, ops), c, p, start);
  }

  /** The calendar reaches every READY day of the period that holds a row. */
  ghost predicate ReachesReady(a: Archive, c: Calendar, p: Period, start: int) {
    forall d: int :: d in ReadyDays(a, p, start) && RowsAt(a.minutes, d) != [] ==> Reached(c, p, d)
  }

  /**
   * A period object is the batch derivation from all READY days of the period exactly when the calendar
   * answers from the start of the period to each of them that holds a row. A day beyond the answers is
   * stored READY and never reaches the derived object: the count raises after the day has been written.
   */
  lemma AllReadyDerivedExactlyWhen(c: Calendar, ops: seq<Op>, p: Period, start: int)
    requires forall op :: op in ops ==> OwnDate(op)
    ensures var a := Run(EMPTY, c, ops);
            RowsAt(a.derived, (p, start)) == DeriveSeq(Batch(a.minutes, ReadyDays(a, p, start)), GrainOf(p))
            <==> ReachesReady(a, c, p, start)
  {
    hide Run, StatusOk, OwnDate, ReachesReady, DeriveSeq, Batch;
    DerivedIsBatch(c, ops, p, start);
    EmptyInv(c);
    RunKeeps(EMPTY, c, ops);
    SameDerivedExactlyWhen(Run(EMPTY, c, ops), c, p, start);
  }

  lemma SameDerivedExactlyWhen(a: Archive, c: Calendar, p: Period, start: int)
    requires ObjectsOk(a)
    ensures DeriveSeq(Batch(a.minutes, CountedDays(a, c, p, start)), GrainOf(p)) == DeriveSeq(Batch(a.minutes, ReadyDays(a, p, start)), GrainOf(p))
            <==> ReachesReady(a, c, p, start)
  {
    hide ToMap, FromMap, TradeDay, Derived, PeriodStart, GrainOf, Batch, Reached;
    var counted, ready, g := CountedDays(a, c, p, start), ReadyDays(a, p, start), GrainOf(p);
    var x, y := Batch(a.minutes, counted), Batch(a.minutes, ready);
    BatchByBucket(a.minutes, counted);
    BatchByBucket(a.minutes, ready);
    if ReachesReady(a, c, p, start) {
      EmptyMap();
      forall k
        ensures k in ToMap(x) <==> k in ToMap(y)
        ensures k in ToMap(x) && k in ToMap(y) ==> ToMap(x)[k] == ToMap(y)[k]
      {
        if k in ToMap(y) {
          assert TradeDay(k) in ready && RowsAt(a.minutes, TradeDay(k)) != [];
        }
      }
      assert ToMap(x) == ToMap(y);
    } else {
      var d: int :| d in ready && RowsAt(a.minutes, d) != [] && !Reached(c, p, d);
      var k := RowAtDay(a, d);
      var r := RowOfSource(ToMap(y), g, k);
      if r in DeriveSeq(x, g) {
        var j := SourceOfRow(ToMap(x), g, r);
      }
    }
  }

  lemma RowAtDay(a: Archive, d: int) returns (k: int)
    requires ObjectsOk(a) && RowsAt(a.minutes, d) != []
    ensures k in ToMap(RowsAt(a.minutes, d)) && TradeDay(k) == d
  {
    hide ToMap, TradeDay;
    ToMapRows(RowsAt(a.minutes, d));
    assert RowsAt(a.minutes, d)[0] in RowsAt(a.minutes, d);
    k := RowsAt(a.minutes, d)[0].bucket;
  }

  /** The date of a row is the date of some derived row. */
  lemma RowOfSource(m: map<int, Row>, g: Grain, k: int) returns (r: Row)
    requires k in m
    ensures r in FromMap(Derived(m, g)) && TradeDay(r.bucket) == TradeDay(k)
  {
    hide ToMap, FromMap, TradeDay, GroupOf, Summary, Part;
    var rows := FromMap(Derived(m, g));
    DerivedMeaning(m, g);
    ToMapRows(rows);
    GroupKeepsDate(g, k);
    assert GroupOf(g, k) in Groups(m, g);
    r := ToMap(rows)[GroupOf(g, k)];
  }

  /** A calendar that need not come from the database answers for every day, so nothing is left out. */
  lemma FallbackDerivesAll(c: Calendar, ops: seq<Op>, p: Period, start: int)
    requires !c.requireDb && forall op :: op in ops ==> OwnDate(op)
    ensures var a := Run(EMPTY, c, ops);
            RowsAt(a.derived, (p, start)) == DeriveSeq(Batch(a.minutes, ReadyDays(a, p, start)), GrainOf(p))
  {
    hide Run, OwnDate, DeriveSeq, Batch, Answers;
    AllReadyDerivedExactlyWhen(c, ops, p, start);
    var a := Run(EMPTY, c, ops);
    forall d: int | d in ReadyDays(a, p, start) ensures Reached(c, p, d) {
      FallbackAnswers(c, PeriodStart(p, d), d);
    }
  }

  /**
   * The failing run: with a calendar that must come from the database and lacks some day between the
   * start of the period and the traded day, archiving a full day stores it READY and leaves the period
   * object without it.
   */
  lemma UnansweredDayIsLost(c: Calendar, day: nat, candles: seq<Row>, p: Period)
    requires Trades(c, day) && !Reached(c, p, day)
    requires forall r :: r in candles ==> TradeDay(r.bucket) == day && InContinuousSession(r.bucket)
    requires candles != [] && |ToMap(candles)| >= SessionCloseMinute(c, day) - OPEN_MINUTE
    ensures var a := Run(EMPTY, c, [ArchiveSymbol(day, candles)]);
            && day in ReadyDays(a, p, PeriodStart(p, day)) && RowsAt(a.minutes, day) != []
            && RowsAt(a.derived, (p, PeriodStart(p, day))) == []
  {
    hide ToMap, TradeDay, Merge, InContinuousSession, SessionCloseMinute, PeriodStart, Reached, WriteAggregates, DeriveSeq, Batch, FilterSession;
    var ops := [ArchiveSymbol(day, candles)];
    FilterKeeps(candles);
    FilterAll(candles);
    DerivedIsBatch(c, ops, p, PeriodStart(p, day));
    var a := Run(EMPTY, c, ops);
    assert ops[1..] == [];
    assert a == WriteDay(EMPTY, c, day, candles, false);
    FirstDay(c, day, candles);
    assert CountedDays(a, c, p, PeriodStart(p, day)) == {};
    EmptyDerives(GrainOf(p));
    NoDays(a.minutes);
  }

  lemma {:induction false} FilterAll(candles: seq<Row>)
    requires forall r :: r in candles ==> InContinuousSession(r.bucket)
    ensures FilterSession(candles) == candles
    decreases |candles|
  {
    hide InContinuousSession;
    if |candles| > 0 {
      assert candles == candles[..|candles| - 1] + [candles[|candles| - 1]];
      FilterAll(candles[..|candles| - 1]);
    }
  }

  lemma NoDays(minutes: map<int, seq<Row>>)
    ensures Batch(minutes, {}) == []
  {
  }

  lemma FirstDay(c: Calendar, day: nat, candles: seq<Row>)
    requires Trades(c, day) && candles != [] && |ToMap(candles)| >= SessionCloseMinute(c, day) - OPEN_MINUTE
    ensures var a := WriteDay(EMPTY, c, day, candles, false);
            a.minuteStatus == map[day := Ready] && a.minutes.Keys == {day} && a.minutes[day] != []
  {
    hide ToMap, FromMap, SessionCloseMinute, WriteAggregates;
    MergeMeaning([], candles);
    EmptyMap();
    ToMapRows(candles);
    var merged := Merge([], candles);
    assert map[] + ToMap(candles) == ToMap(candles);
    assert candles[0] in candles;
    AggregatesKeepDays(PutDay(EMPTY, day, merged, Ready), c, day, merged);
  }

  /** Rebuilding any object after any run changes no stored row. */
  lemma RebuildIsIdentity(c: Calendar, ops: seq<Op>, p: Period, start: int, q: Period, s: int)
    requires forall op :: op in ops ==> OwnDate(op)
    ensures var a := Run(EMPTY, c, ops);
            RowsAt(Rebuild(a, c, p, start).0.derived, (q, s)) == RowsAt(a.derived, (q, s))
  {
    hide Run, Inv, Rebuild, OwnDate;
    EmptyInv(c);
    RunKeeps(EMPTY, c, ops);
    RebuildKeepsRows(Run(EMPTY, c, ops), c, p, start);
  }
}
