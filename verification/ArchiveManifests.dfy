/**
 * What READY means, over every run whose bars are minute-aligned and inside their own session: a day
 * is READY when its session is complete, and a month or year object is READY when every trading day
 * from the start of the period to the latest READY day it counts is complete. Both are decided by counting.
 */
module ArchiveManifests {
  import opened Wrappers
  import opened IntSets
  import opened CandleRows
  import opened KrxCalendar
  import opened KstTime
  import opened SessionRows
  import opened ChartArchive

  /** Every session closes after 09:00. */
  ghost predicate Sessions(c: Calendar) {
    forall d: nat :: Trades(c, d) ==> OPEN_MINUTE < SessionCloseMinute(c, d)
  }

  /** The built-in table has such sessions, and so has every table whose own closing times are after 09:00. */
  lemma SessionsInRange(c: Calendar)
    requires forall d: nat :: d in c.dbDays && c.dbDays[d].isTradingDay && c.dbDays[d].sessionClose.TimeOfDay? ==>
               OPEN_MINUTE < c.dbDays[d].sessionClose.hour * 60 + c.dbDays[d].sessionClose.minute
    ensures Sessions(c)
  {
    hide DateOf;
  }

  /** The minutes of the session that the filter lets through. */
  function SessionBars(c: Calendar, d: nat): set<int> {
    Bars(d, OPEN_MINUTE, if SessionCloseMinute(c, d) <= CLOSE_MINUTE then SessionCloseMinute(c, d) else CLOSE_MINUTE)
  }

  predicate InOwnSession(c: Calendar, day: nat, candles: seq<Row>) {
    forall r :: r in candles ==>
      (Aligned(r.bucket) && TradeDay(r.bucket) == day && OPEN_MINUTE <= MinuteOfDay(r.bucket) < SessionCloseMinute(c, day))
  }

  /** The candles of a write are minute bars of the session of the date it is for. */
  predicate OwnSession(c: Calendar, op: Op) {
    (op.ArchiveSymbol? || op.Backfill?) ==> InOwnSession(c, op.day, op.candles)
  }

  /** The rows a set of complete days is to have: their hours, or one for each day. */
  function Count(c: Calendar, p: Period, days: set<int>): int
    requires DayNumbers(days)
  {
    if p == Month then SumHours(c, days) else |days|
  }

  function StatusOf(a: Archive, p: Period, start: int): Option<Status> {
    if (p, start) in a.derivedStatus then Some(a.derivedStatus[(p, start)]) else None
  }

  /** A period object exists when some day of it is counted; unless stale, READY is the count up to the last such day. */
  ghost predicate PeriodOk(c: Calendar, p: Period, start: int, counted: set<int>, rows: seq<Row>, status: Option<Status>) {
    && (status.Some? <==> counted != {})
    && (status.Some? ==> status.value in {Ready, Partial, Stale})
    && (status.Some? && status.value != Stale ==>
          start >= 0 && DayNumbers(TradingSet(c, start, MaxOf(counted)))
          && (status.value == Ready <==> |rows| >= Count(c, p, TradingSet(c, start, MaxOf(counted)))))
  }

  ghost predicate SessionObjects(a: Archive, c: Calendar) {
    forall d: int :: d in a.minutes ==> d >= 0 && ToMap(a.minutes[d]).Keys <= SessionBars(c, d)
  }

  ghost predicate ManifestInv(a: Archive, c: Calendar) {
    && Inv(a, c) && SessionObjects(a, c)
    && forall p, s :: PeriodOk(c, p, s, CountedDays(a, c, p, s), RowsAt(a.derived, (p, s)), StatusOf(a, p, s))
  }

  // ---------------------------------------------------------------- counting rows

  /** A READY day holds exactly its session; a day that is not READY lacks a minute of it. */
  lemma ReadyDayIsFull(a: Archive, c: Calendar, d: int)
    requires Inv(a, c) && SessionObjects(a, c) && Sessions(c) && d in a.minutes
    ensures d >= 0 && Trades(c, d) && d in a.minuteStatus && OPEN_MINUTE < SessionCloseMinute(c, d)
    ensures a.minuteStatus[d] == Ready <==> Complete(d, SessionCloseMinute(c, d), ToMap(a.minutes[d]).Keys)
    ensures a.minuteStatus[d] == Ready ==>
              SessionCloseMinute(c, d) <= CLOSE_MINUTE && ToMap(a.minutes[d]).Keys == Bars(d, OPEN_MINUTE, SessionCloseMinute(c, d))
  {
    hide SessionCloseMinute, ToMap, Trades, Agrees, Complete, TradeDay;
    assert d >= 0;
    SortedSize(a.minutes[d]);
    if SessionCloseMinute(c, d) <= CLOSE_MINUTE {
      ReadyIsCompleteInSession(d, SessionCloseMinute(c, d), ToMap(a.minutes[d]).Keys);
    } else {
      StoredIsInFilter(d, ToMap(a.minutes[d]).Keys);
      LateCloseNeverReady(d, SessionCloseMinute(c, d), ToMap(a.minutes[d]).Keys);
    }
  }

  lemma OneDayGroup(m: map<int, Row>, day: int)
    requires m.Keys != {} && forall k :: k in m ==> TradeDay(k) == day
    ensures |Derived(m, Day)| == 1
  {
    hide TradeDay;
    var k := Pick(m.Keys);
    assert Groups(m, Day) == {day * DAY_MS - KST_OFFSET_MS} by {
      assert GroupOf(Day, k) in Groups(m, Day);
    }
    assert |Derived(m, Day).Keys| == 1;
  }

  lemma FullDayCount(c: Calendar, p: Period, d: nat, m: map<int, Row>)
    requires OPEN_MINUTE < SessionCloseMinute(c, d) <= CLOSE_MINUTE && m.Keys == Bars(d, OPEN_MINUTE, SessionCloseMinute(c, d))
    ensures |Derived(m, GrainOf(p))| == if p == Month then HoursOf(c, d) else 1
  {
    hide SessionCloseMinute, Derived, TradeDay, MinuteOfDay, Aligned;
    if p == Month {
      CompleteDayHours(d, SessionCloseMinute(c, d), m);
    } else {
      assert |m.Keys| > 0;
      OneDayGroup(m, d);
    }
  }

  ghost predicate FullDays(minutes: map<int, seq<Row>>, c: Calendar, days: set<int>) {
    && (forall d: int :: d in minutes ==> OfDay(d, minutes[d]))
    && (forall d: int :: d in days ==>
          d >= 0 && OPEN_MINUTE < SessionCloseMinute(c, d) <= CLOSE_MINUTE 
          && ToMap(RowsAt(minutes, d)).Keys == Bars(d, OPEN_MINUTE, SessionCloseMinute(c, d)))
  }

  lemma {:induction false} CountRows(minutes: map<int, seq<Row>>, c: Calendar, p: Period, days: set<int>)
    requires FullDays(minutes, c, days)
    ensures DayNumbers(days)
    ensures |Derived(ToMap(Batch(minutes, days)), GrainOf(p))| == Count(c, p, days)
    decreases |days|
  {
    hide ToMap, SessionCloseMinute, HoursOf, GrainOf, TradeDay, SessionBars, Derived, Bars, OfDay;
    if days == {} {
      EmptyMap();
      NoneDerived(GrainOf(p));
    } else {
      var top := MaxOf(days);
      var rest := days - {top};
      CountRows(minutes, c, p, rest);
      ToMapConcat(Batch(minutes, rest), RowsAt(minutes, top));
      DayApart(minutes, rest, top, GrainOf(p));
      FullDayCount(c, p, top, ToMap(RowsAt(minutes, top)));
    }
  }

  lemma NoneDerived(g: Grain)
    ensures |Derived(map[], g)| == 0
  {
    assert Groups(map[], g) == {};
    assert |Derived(map[], g).Keys| == 0;
  }

  lemma DayApart(minutes: map<int, seq<Row>>, rest: set<int>, day: int, g: Grain)
    requires (forall d: int :: d in minutes ==> OfDay(d, minutes[d])) && day !in rest
    ensures var before, own := ToMap(Batch(minutes, rest)), ToMap(RowsAt(minutes, day));
            |Derived(before + own, g)| == |Derived(before, g)| + |Derived(own, g)|
  {
    hide ToMap, TradeDay, Derived, Batch;
    var before, own := ToMap(Batch(minutes, rest)), ToMap(RowsAt(minutes, day));
    EmptyMap();
    BatchByBucket(minutes, rest);
    DatesApart(before, own, g, day);
    DerivedUnion(before, own, g);
    UnionSize(Derived(before, g), Derived(own, g));
  }

  lemma UnionSize(x: map<int, Row>, y: map<int, Row>)
    requires x.Keys !! y.Keys
    ensures |x + y| == |x| + |y|
  {
    assert (x + y).Keys == x.Keys + y.Keys;
  }

  lemma CountedDaysFull(a: Archive, c: Calendar, p: Period, start: int)
    requires Inv(a, c) && SessionObjects(a, c) && Sessions(c)
    ensures FullDays(a.minutes, c, CountedDays(a, c, p, start))
  {
    hide ToMap, SessionCloseMinute, Trades, Agrees, PeriodStart, Reached;
    forall d: int | d in CountedDays(a, c, p, start)
      ensures d >= 0 && OPEN_MINUTE < SessionCloseMinute(c, d) <= CLOSE_MINUTE
              && ToMap(RowsAt(a.minutes, d)).Keys == Bars(d, OPEN_MINUTE, SessionCloseMinute(c, d))
    {
      ReadyDayIsFull(a, c, d);
    }
  }

  /** A period object has as many rows as its counted days are to have. */
  lemma PeriodRowCount(a: Archive, c: Calendar, p: Period, start: int)
    requires Inv(a, c) && SessionObjects(a, c) && Sessions(c)
    ensures DayNumbers(CountedDays(a, c, p, start))
    ensures |RowsAt(a.derived, (p, start))| == Count(c, p, CountedDays(a, c, p, start))
  {
    hide ToMap, FromMap, Derived, Batch, Sessions, SessionObjects, FullDays, Count, CountedDays, ObjectsOk, StatusOk;
    CountedDaysFull(a, c, p, start);
    CountRows(a.minutes, c, p, CountedDays(a, c, p, start));
    assert Agrees(a, c, p, start);
  }

  // ---------------------------------------------------------------- the date a count runs to

  lemma NonEmptyDay(a: Archive, c: Calendar, d: int) returns (k: int)
    requires Inv(a, c) && SessionObjects(a, c) && Sessions(c) && d in a.minuteStatus && a.minuteStatus[d] == Ready
    ensures k in ToMap(RowsAt(a.minutes, d)) && TradeDay(k) == d
  {
    hide ToMap, SessionCloseMinute, Trades, Agrees, PeriodStart, Complete, TradeDay, MinuteOfDay, Aligned;
    ReadyDayIsFull(a, c, d);
    k := Pick(Bars(d, OPEN_MINUTE, SessionCloseMinute(c, d)));
  }

  /** The latest date among the rows of a period object is its latest counted day. */
  lemma LatestRow(a: Archive, c: Calendar, p: Period, start: int, day: nat)
    requires Inv(a, c) && SessionObjects(a, c) && Sessions(c) && day in CountedDays(a, c, p, start)
    ensures MaxTradeDay(BatchDerivation(a, c, p, start), day) == MaxOf(CountedDays(a, c, p, start))
  {
    hide ToMap, FromMap, TradeDay, Sessions, SessionObjects, StatusOk, Agrees, Derived, Batch, PeriodStart, Reached, MaxTradeDay, GrainOf;
    var days, g := CountedDays(a, c, p, start), GrainOf(p);
    var m := ToMap(Batch(a.minutes, days));
    var rows := BatchDerivation(a, c, p, start);
    BatchByBucket(a.minutes, days);
    MaxTradeDayIs(rows, day);
    var k := NonEmptyDay(a, c, MaxOf(days));
    var last := RowOfSource(m, g, k);
    forall r | r in rows ensures TradeDay(r.bucket) in days {
      var j := SourceOfRow(m, g, r);
    }
  }

  lemma ExpectedGrows(c: Calendar, p: Period, start: nat, day: int, last: int)
    requires Sessions(c) && day <= last && Answers(c, start, last)
    ensures ExpectedRowsInPeriod(c, p, start, day).Some? && ExpectedRowsInPeriod(c, p, start, last).Some?
    ensures DayNumbers(TradingSet(c, start, last))
    ensures ExpectedRowsInPeriod(c, p, start, day).value <= ExpectedRowsInPeriod(c, p, start, last).value
            == Count(c, p, TradingSet(c, start, last))
  {
    hide ExpectedRowsInPeriod, SessionCloseMinute, Trades, IsTradingDay, HoursOf, TradingSet, SumHours;
    ExpectedIsSum(c, p, start, day);
    ExpectedIsSum(c, p, start, last);
    RangeGrows(c, start, day, last);
    SumHoursSubset(c, TradingSet(c, start, day), TradingSet(c, start, last));
    SubsetSize(TradingSet(c, start, day), TradingSet(c, start, last));
  }

  lemma RangeGrows(c: Calendar, start: nat, day: int, last: int)
    requires Sessions(c) && day <= last
    ensures TradingSet(c, start, day) <= TradingSet(c, start, last)
    ensures forall d: int :: d in TradingSet(c, start, last) ==> d >= 0 && HoursOf(c, d) > 0
  {
    hide SessionCloseMinute, Trades, Interval;
  }

  /** The status a write gives is the count up to the latest counted day of the period. */
  lemma WriteStatus(a: Archive, c: Calendar, p: Period, tradeDay: nat, rows: seq<Row>, after: Archive)
    requires Sessions(c) && Inv(after, c) && SessionObjects(after, c)
    requires tradeDay in CountedDays(after, c, p, PeriodStart(p, tradeDay)) && MaxTradeDay(rows, tradeDay) == tradeDay
    requires Merge(RowsAt(a.derived, (p, PeriodStart(p, tradeDay))), DeriveSeq(rows, GrainOf(p))) == BatchDerivation(after, c, p, PeriodStart(p, tradeDay))
    ensures var start, b := PeriodStart(p, tradeDay), WritePeriod(a, c, p, tradeDay, rows).0;
            PeriodOk(c, p, start, CountedDays(after, c, p, start), RowsAt(b.derived, (p, start)), StatusOf(b, p, start))
  {
    hide ExpectedRowsInPeriod, Merge, DeriveSeq, MaxTradeDay, Sessions, Inv, SessionObjects, BatchDerivation, TradingSet, Count, GrainOf, PeriodStart, Answers;
    var start := PeriodStart(p, tradeDay);
    var days := CountedDays(after, c, p, start);
    LatestRow(after, c, p, start, tradeDay);
    assert Reached(c, p, MaxOf(days)) && PeriodStart(p, MaxOf(days)) == start;
    ExpectedGrows(c, p, start, tradeDay, MaxOf(days));
  }

  // ---------------------------------------------------------------- every operation keeps it

  lemma FilteredInSession(c: Calendar, day: nat, candles: seq<Row>)
    requires InOwnSession(c, day, candles)
    ensures InOwnSession(c, day, FilterSession(candles)) && forall r :: r in FilterSession(candles) ==> InContinuousSession(r.bucket)
  {
    hide SessionCloseMinute, FilterSession, InContinuousSession;
    FilterKeeps(candles);
  }

  lemma MergedInSession(a: Archive, c: Calendar, day: nat, incoming: seq<Row>)
    requires SessionObjects(a, c) && InOwnSession(c, day, incoming)
    requires forall r :: r in incoming ==> InContinuousSession(r.bucket)
    ensures ToMap(Merge(RowsAt(a.minutes, day), incoming)).Keys <= SessionBars(c, day)
  {
    hide ToMap, SessionCloseMinute, Merge, TradeDay, MinuteOfDay, Aligned;
    MergeMeaning(RowsAt(a.minutes, day), incoming);
    ToMapRows(incoming);
    EmptyMap();
    forall k | k in ToMap(incoming) ensures k in SessionBars(c, day) {
      assert ToMap(incoming)[k] in incoming;
    }
    assert ToMap(RowsAt(a.minutes, day)).Keys <= SessionBars(c, day);
  }

  lemma ReadyWriteKeepsStatus(a: Archive, c: Calendar, day: nat, merged: seq<Row>, p: Period, s: int)
    requires Sessions(c) && ManifestInv(a, c) && Trades(c, day) && Sorted(merged) && OfDay(day, merged) && |merged| > 0
    requires ToMap(RowsAt(a.minutes, day)).Keys <= ToMap(merged).Keys
    requires var after := WriteAggregates(PutDay(a, day, merged, Ready), c, day, merged); Inv(after, c) && SessionObjects(after, c)
    ensures var after := WriteAggregates(PutDay(a, day, merged, Ready), c, day, merged);
            PeriodOk(c, p, s, CountedDays(after, c, p, s), RowsAt(after.derived, (p, s)), StatusOf(after, p, s))
  {
    hide ToMap, Merge, DeriveSeq, WritePeriod, WriteAggregates, BatchDerivation, PeriodStart, PeriodOk, SessionObjects, Trades, Sorted, MaxTradeDay, GrainOf, StatusOk, SessionCloseMinute, Reached, CountedDays;
    var b := PutDay(a, day, merged, Ready);
    var after := WriteAggregates(b, c, day, merged);
    ReadyWriteMerges(a, c, day, merged, Month);
    ReadyWriteMerges(a, c, day, merged, Year);
    PutDayOk(a, day, merged, Ready);
    OneDate(day, merged);
    AggregatesWritten(b, c, day, merged);
    var m := WritePeriod(b, c, Month, day, merged).0;
    SameCounted(b, after, c, p, s);
    if s == PeriodStart(p, day) && Reached(c, p, day) {
      SameBatch(b, after, c, p, s);
      DayCounted(b, c, p, day);
      WriteStatus(if p == Month then b else m, c, p, day, merged, after);
    } else {
      OtherCounted(a, c, p, s, day, merged);
    }
  }

  lemma SameCounted(a: Archive, b: Archive, c: Calendar, p: Period, s: int)
    requires forall d: int :: IsReady(a, d) <==> IsReady(b, d)
    ensures CountedDays(a, c, p, s) == CountedDays(b, c, p, s)
  {
    hide PeriodStart, Reached, CountedDays, ReadyDays;
    forall d: int ensures d in CountedDays(a, c, p, s) <==> d in CountedDays(b, c, p, s) {
      assert IsReady(a, d) <==> IsReady(b, d);
    }
  }

  lemma DayCounted(b: Archive, c: Calendar, p: Period, day: nat)
    requires Reached(c, p, day) && day in b.minuteStatus && b.minuteStatus[day] == Ready
    ensures day in CountedDays(b, c, p, PeriodStart(p, day))
  {
    hide PeriodStart, Reached;
  }

  lemma OtherCounted(a: Archive, c: Calendar, p: Period, s: int, day: nat, merged: seq<Row>)
    requires s != PeriodStart(p, day) || !Reached(c, p, day)
    ensures CountedDays(PutDay(a, day, merged, Ready), c, p, s) == CountedDays(a, c, p, s)
  {
    hide PeriodStart, Reached;
  }

  lemma WriteDayKeepsManifest(a: Archive, c: Calendar, day: nat, incoming: seq<Row>, requireReady: bool)
    requires Sessions(c) && ManifestInv(a, c) && Trades(c, day) && InOwnSession(c, day, incoming)
    requires forall r :: r in incoming ==> InContinuousSession(r.bucket)
    ensures ManifestInv(WriteDay(a, c, day, incoming, requireReady), c)
  {
    hide ToMap, TradeDay, MinuteOfDay, Aligned, PeriodStart, Merge, WriteAggregates, SessionCloseMinute, PeriodOk, Sorted, Inv, SessionBars, InContinuousSession, CountedDays;
    var merged := Merge(RowsAt(a.minutes, day), incoming);
    var after := WriteDay(a, c, day, incoming, requireReady);
    WriteDayKeeps(a, c, day, incoming, requireReady);
    InvParts(a, c);
    MergedDay(a, day, incoming);
    MergedInSession(a, c, day, incoming);
    var expected := SessionCloseMinute(c, day) - OPEN_MINUTE;
    assert ExpectedOneMinuteRows(c, day) == Some(expected);
    if |merged| >= expected {
      AggregatesKeepDays(PutDay(a, day, merged, Ready), c, day, merged);
      forall p, s ensures PeriodOk(c, p, s, CountedDays(after, c, p, s), RowsAt(after.derived, (p, s)), StatusOf(after, p, s)) {
        ReadyWriteKeepsStatus(a, c, day, merged, p, s);
      }
    } else if !requireReady {
      PartialKeeps(a, c, day, merged);
    }
  }

  lemma InvParts(a: Archive, c: Calendar)
    requires Inv(a, c)
    ensures ObjectsOk(a) && StatusOk(a, c)
  {
  }

  /** A write that leaves the set of READY days alone leaves every period object alone. */
  lemma PartialKeeps(a: Archive, c: Calendar, day: nat, merged: seq<Row>)
    requires ManifestInv(a, c) && (day in a.minuteStatus ==> a.minuteStatus[day] != Ready)
    ensures var after := PutDay(a, day, merged, Partial);
            forall p, s :: PeriodOk(c, p, s, CountedDays(after, c, p, s), RowsAt(after.derived, (p, s)), StatusOf(after, p, s))
  {
    hide PeriodOk, Inv, SessionObjects, PeriodStart, CountedDays;
    var after := PutDay(a, day, merged, Partial);
    forall p, s ensures PeriodOk(c, p, s, CountedDays(after, c, p, s), RowsAt(after.derived, (p, s)), StatusOf(after, p, s)) {
      SameCounted(a, after, c, p, s);
    }
  }

  lemma NoTradeKeepsManifest(a: Archive, c: Calendar, day: nat)
    requires ManifestInv(a, c) && !Trades(c, day)
    ensures ManifestInv(a.(minuteStatus := a.minuteStatus[day := NoTrade]), c)
  {
    hide PeriodOk, Inv, PeriodStart, Trades, SessionCloseMinute, CountedDays, StatusOk, ObjectsOk;
    var after := a.(minuteStatus := a.minuteStatus[day := NoTrade]);
    NoTradeKeeps(a, c, day);
    InvParts(a, c);
    NotReadyWithoutTrade(a, c, day);
    forall p, s ensures PeriodOk(c, p, s, CountedDays(after, c, p, s), RowsAt(after.derived, (p, s)), StatusOf(after, p, s)) {
      SameCounted(a, after, c, p, s);
    }
  }

  lemma NotReadyWithoutTrade(a: Archive, c: Calendar, day: nat)
    requires StatusOk(a, c) && !Trades(c, day)
    ensures !IsReady(a, day)
  {
    hide Trades;
  }

  lemma StaleIsOk(c: Calendar, p: Period, s: int, ready: set<int>, rows: seq<Row>, status: Option<Status>)
    requires PeriodOk(c, p, s, ready, rows, status) && status.Some?
    ensures PeriodOk(c, p, s, ready, rows, Some(Stale))
  {
  }

  lemma MarkStaleKeepsManifest(a: Archive, c: Calendar, day: nat)
    requires ManifestInv(a, c)
    ensures ManifestInv(MarkedStale(a, day), c)
  {
    hide PeriodOk, Inv, PeriodStart;
    var after := MarkedStale(a, day);
    MarkStaleKeeps(a, c, day);
    forall p, s ensures PeriodOk(c, p, s, CountedDays(after, c, p, s), RowsAt(after.derived, (p, s)), StatusOf(after, p, s)) {
      assert CountedDays(after, c, p, s) == CountedDays(a, c, p, s);
      if StatusOf(a, p, s).Some? {
        StaleIsOk(c, p, s, CountedDays(a, c, p, s), RowsAt(a.derived, (p, s)), StatusOf(a, p, s));
      }
    }
  }

  lemma RebuildKeepsManifest(a: Archive, c: Calendar, p: Period, start: int)
    requires Sessions(c) && ManifestInv(a, c)
    ensures ManifestInv(Rebuild(a, c, p, start).0, c)
  {
    hide PeriodOk, Inv, SessionObjects, PeriodStart, Rebuild, CountedDays;
    var after := Rebuild(a, c, p, start).0;
    RebuildKeeps(a, c, p, start);
    RebuildKeepsRows(a, c, p, start);
    assert SessionObjects(after, c) by { SameObjects(a, after, c); }
    forall q, s ensures PeriodOk(c, q, s, CountedDays(after, c, q, s), RowsAt(after.derived, (q, s)), StatusOf(after, q, s)) {
      SameCounted(a, after, c, q, s);
      RebuildStatus(a, c, p, start, q, s);
    }
  }

  /** A rebuild gives its object the count up to the latest counted day, and leaves every other status alone. */
  lemma RebuildStatus(a: Archive, c: Calendar, p: Period, start: int, q: Period, s: int)
    requires Sessions(c) && ManifestInv(a, c)
    ensures var after := Rebuild(a, c, p, start).0;
            PeriodOk(c, q, s, CountedDays(a, c, q, s), RowsAt(after.derived, (q, s)), StatusOf(after, q, s))
  {
    hide PeriodOk, SessionObjects, PeriodStart, ToMap, TradeDay, Merge, DeriveSeq, WritePeriod, Batch, BatchDerivation, Reached, CountedDays, StatusOk, MergesToBatch, MaxTradeDay;
    var after := Rebuild(a, c, p, start).0;
    var days := ReadyDays(a, p, start);
    var rows := Batch(a.minutes, days);
    assert PeriodOk(c, q, s, CountedDays(a, c, q, s), RowsAt(a.derived, (q, s)), StatusOf(a, q, s));
    if after != a {
      InvParts(a, c);
      RebuildDay(a, p, start);
      RebuildMerges(a, c, p, start);
      RebuildWrites(a, c, p, start);
      var day := MaxOf(days);
      assert after == WritePeriod(a, c, p, day, rows).0;
      if (q, s) == (p, start) {
        MergedAgain(a, c, p, day, rows);
        DayCounted(a, c, p, day);
        WriteStatus(a, c, p, day, rows, a);
      }
    }
  }

  lemma MergedAgain(a: Archive, c: Calendar, p: Period, day: nat, rows: seq<Row>)
    requires MergesToBatch(a, c, p, day, rows) && Reached(c, p, day)
    ensures Merge(RowsAt(a.derived, (p, PeriodStart(p, day))), DeriveSeq(rows, GrainOf(p))) == BatchDerivation(a, c, p, PeriodStart(p, day))
  {
    hide Merge, DeriveSeq, BatchDerivation, PeriodStart, Reached;
  }

  lemma SameObjects(a: Archive, b: Archive, c: Calendar)
    requires SessionObjects(a, c) && b.minutes == a.minutes
    ensures SessionObjects(b, c)
  {
  }

  lemma ApplyKeepsManifest(a: Archive, c: Calendar, op: Op)
    requires Sessions(c) && ManifestInv(a, c) && OwnSession(c, op)
    ensures ManifestInv(Apply(a, c, op), c)
  {
    hide ManifestInv, WriteDay, MarkedStale, Rebuild, InOwnSession, IsTradingDay, FilterSession, Sessions;
    match op {
      case ArchiveSymbol(day, candles) =>
        FilteredInSession(c, day, candles);
        if IsTradingDay(c, day) == Some(true) {
          WriteDayKeepsManifest(a, c, day, FilterSession(candles), false);
        } else if IsTradingDay(c, day) == Some(false) {
          NoTradeKeepsManifest(a, c, day);
        }
      case Backfill(day, candles, requireReady) =>
        FilteredInSession(c, day, candles);
        if IsTradingDay(c, day) == Some(true) {
          WriteDayKeepsManifest(a, c, day, FilterSession(candles), requireReady);
        }
      case MarkDerivedStale(day) => MarkStaleKeepsManifest(a, c, day);
      case RebuildStale(p, start) => RebuildKeepsManifest(a, c, p, start);
    }
  }

  lemma {:induction false} RunKeepsManifest(a: Archive, c: Calendar, ops: seq<Op>)
    requires Sessions(c) && ManifestInv(a, c) && forall op :: op in ops ==> OwnSession(c, op)
    ensures ManifestInv(Run(a, c, ops), c)
    decreases |ops|
  {
    hide ManifestInv, Apply, OwnSession, Sessions;
    if |ops| > 0 {
      ApplyKeepsManifest(a, c, ops[0]);
      RunKeepsManifest(Apply(a, c, ops[0]), c, ops[1..]);
    }
  }

  lemma EmptyManifest(c: Calendar)
    ensures ManifestInv(EMPTY, c)
  {
    hide Inv, PeriodStart;
    EmptyInv(c);
    forall p, s ensures PeriodOk(c, p, s, CountedDays(EMPTY, c, p, s), RowsAt(EMPTY.derived, (p, s)), StatusOf(EMPTY, p, s)) {
      assert CountedDays(EMPTY, c, p, s) == {};
    }
  }

  // ---------------------------------------------------------------- what READY means

  /** The stored minutes of a day cover its session. */
  ghost predicate DayComplete(a: Archive, c: Calendar, d: nat) {
    Complete(d, SessionCloseMinute(c, d), ToMap(RowsAt(a.minutes, d)).Keys)
  }

  lemma DayReady(a: Archive, c: Calendar, d: nat)
    requires Sessions(c) && ManifestInv(a, c) && Trades(c, d)
    ensures IsReady(a, d) <==> DayComplete(a, c, d)
  {
    hide Trades, SessionCloseMinute, ToMap, Agrees;
    if d in a.minutes {
      ReadyDayIsFull(a, c, d);
    } else {
      EmptyMap();
      assert BarAt(d, OPEN_MINUTE) !in ToMap(RowsAt(a.minutes, d)).Keys;
    }
  }

  /** After every run of in-session writes: a trading day is READY exactly when every session minute is present. */
  lemma DayReadyIsComplete(c: Calendar, ops: seq<Op>, d: nat)
    requires Sessions(c) && Trades(c, d) && forall op :: op in ops ==> OwnSession(c, op)
    ensures IsReady(Run(EMPTY, c, ops), d) <==> DayComplete(Run(EMPTY, c, ops), c, d)
  {
    hide Run, ManifestInv, Sessions, OwnSession, IsReady, DayComplete, Trades;
    EmptyManifest(c);
    RunKeepsManifest(EMPTY, c, ops);
    DayReady(Run(EMPTY, c, ops), c, d);
  }

  /** Every trading day of the range is complete. */
  ghost predicate AllComplete(a: Archive, c: Calendar, first: int, last: int) {
    forall d: nat :: first <= d <= last && Trades(c, d) ==> DayComplete(a, c, d)
  }

  lemma CountedInRange(a: Archive, c: Calendar, p: Period, start: nat)
    requires Sessions(c) && ManifestInv(a, c) && CountedDays(a, c, p, start) != {}
    ensures CountedDays(a, c, p, start) <= TradingSet(c, start, MaxOf(CountedDays(a, c, p, start)))
  {
    hide Trades, SessionCloseMinute, Agrees, SessionObjects, PeriodOk, Interval, Reached;
  }

  lemma RangeIsReady(a: Archive, c: Calendar, p: Period, start: nat)
    requires Sessions(c) && ManifestInv(a, c) && CountedDays(a, c, p, start) != {}
    ensures var days := CountedDays(a, c, p, start);
            days == TradingSet(c, start, MaxOf(days)) <==> AllComplete(a, c, start, MaxOf(days))
  {
    hide Trades, Sessions, ManifestInv, DayComplete, PeriodStart, Reached;
    var days := CountedDays(a, c, p, start);
    var last := MaxOf(days);
    CountedInRange(a, c, p, start);
    forall d: nat | start <= d <= last && Trades(c, d) ensures d in days <==> DayComplete(a, c, d) {
      DayReady(a, c, d);
      PeriodMonotone(p, d, last);
      ReachedEarlier(c, p, d, last);
    }
    if AllComplete(a, c, start, last) {
      assert forall d: int :: d in TradingSet(c, start, last) ==> d in days;
    }
  }

  lemma PeriodReady(a: Archive, c: Calendar, p: Period, start: int)
    requires Sessions(c) && ManifestInv(a, c) && (p, start) in a.derivedStatus && a.derivedStatus[(p, start)] != Stale
    ensures CountedDays(a, c, p, start) != {}
    ensures a.derivedStatus[(p, start)] == Ready <==> AllComplete(a, c, start, MaxOf(CountedDays(a, c, p, start)))
  {
    hide Inv, SessionObjects, AllComplete, SessionCloseMinute, Trades, CountedDays, TradingSet;
    assert PeriodOk(c, p, start, CountedDays(a, c, p, start), RowsAt(a.derived, (p, start)), StatusOf(a, p, start));
    var days := CountedDays(a, c, p, start);
    var range := TradingSet(c, start, MaxOf(days));
    PeriodRowCount(a, c, p, start);
    RangeIsReady(a, c, p, start);
    CountedInRange(a, c, p, start);
    RangeGrows(c, start, MaxOf(days), MaxOf(days));
    SumHoursSubset(c, days, range);
    SubsetSize(days, range);
  }

  /**
   * After every run of in-session writes, for every calendar: a month's 1h object, or a year's 1d object,
   * that is not marked stale is READY exactly when every trading day from the start of the period to the
   * latest READY day it counts is complete.
   */
  lemma PeriodReadyIsComplete(c: Calendar, ops: seq<Op>, p: Period, start: int)
    requires Sessions(c) && forall op :: op in ops ==> OwnSession(c, op)
    ensures var a := Run(EMPTY, c, ops);
            (p, start) in a.derivedStatus && a.derivedStatus[(p, start)] != Stale ==>
              && CountedDays(a, c, p, start) != {}
              && (a.derivedStatus[(p, start)] == Ready <==> AllComplete(a, c, start, MaxOf(CountedDays(a, c, p, start))))
  {
    hide Run, ManifestInv, Sessions, OwnSession, AllComplete, CountedDays;
    EmptyManifest(c);
    RunKeepsManifest(EMPTY, c, ops);
    var a := Run(EMPTY, c, ops);
    if (p, start) in a.derivedStatus && a.derivedStatus[(p, start)] != Stale {
      PeriodReady(a, c, p, start);
    }
  }
}
