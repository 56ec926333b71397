/** The archive writer: the methods that read, merge and write the stored objects of one symbol. */
module ChartArchiveWriter {
  import opened Wrappers
  import opened IntSets
  import opened CandleRows
  import opened KrxCalendar
  import opened SessionRows
  import opened ChartArchive

  method MaxKstTradeDate(rows: seq<Row>, fallback: int) returns (day: int)
    ensures day == MaxTradeDay(rows, fallback)
  {
    hide TradeDay;
    day := fallback;
    var i := 0;
    while i < |rows|
      invariant 0 <= i <= |rows| && day == MaxTradeDay(rows[..i], fallback)
    {
      assert rows[..i + 1][..i] == rows[..i];
      if TradeDay(rows[i].bucket) > day {
        day := TradeDay(rows[i].bucket);
      }
      i := i + 1;
    }
    assert rows[..i] == rows;
  }

  /** Days in ascending order, as the query for READY one-minute manifests lists them. */
  function Ascending(days: set<int>): seq<int>
    decreases |days|
  {
    if days == {} then [] else Ascending(days - {MaxOf(days)}) + [MaxOf(days)]
  }

  function Concat(minutes: map<int, seq<Row>>, sources: seq<int>): seq<Row> {
    if |sources| == 0 then [] else Concat(minutes, sources[..|sources| - 1]) + RowsAt(minutes, sources[|sources| - 1])
  }

  lemma {:induction false} ConcatIsBatch(minutes: map<int, seq<Row>>, days: set<int>)
    ensures Concat(minutes, Ascending(days)) == Batch(minutes, days)
    ensures days != {} ==> |Ascending(days)| > 0 && Ascending(days)[|Ascending(days)| - 1] == MaxOf(days)
    ensures days == {} ==> Ascending(days) == []
    decreases |days|
  {
    if days != {} {
      var rest := days - {MaxOf(days)};
      ConcatIsBatch(minutes, rest);
      assert (Ascending(rest) + [MaxOf(days)])[..|Ascending(rest)|] == Ascending(rest);
    }
  }

  /** The effect of rebuilding a list of manifests, one after another, up to the first error of the calendar. */
  function RebuildAll(a: Archive, c: Calendar, listed: seq<(Period, int)>): (Archive, bool) {
    if |listed| == 0 then (a, true)
    else
      var (b, ok) := RebuildAll(a, c, listed[..|listed| - 1]);
      if ok then Rebuild(b, c, listed[|listed| - 1].0, listed[|listed| - 1].1) else (b, false)
  }

  /** An error ends the rebuild: the later manifests change nothing. */
  lemma {:induction false} RebuildStops(a: Archive, c: Calendar, listed: seq<(Period, int)>, i: nat)
    requires i <= |listed| && !RebuildAll(a, c, listed[..i]).1
    ensures RebuildAll(a, c, listed) == RebuildAll(a, c, listed[..i])
    decreases |listed|
  {
    hide Rebuild;
    if i == |listed| {
      assert listed[..i] == listed;
    } else {
      assert listed[..|listed| - 1][..i] == listed[..i];
      RebuildStops(a, c, listed[..|listed| - 1], i);
    }
  }

  predicate Skips(a: Archive, key: (Period, int)) {
    var days := ReadyDays(a, key.0, key.1);
    days == {} || |Batch(a.minutes, days)| == 0
  }

  lemma {:induction false} BatchEmptyExactlyWhen(minutes: map<int, seq<Row>>, days: set<int>)
    ensures Batch(minutes, days) == [] <==> forall d: int :: d in days ==> RowsAt(minutes, d) == []
    decreases |days|
  {
    if days != {} {
      BatchEmptyExactlyWhen(minutes, days - {MaxOf(days)});
      assert forall d: int :: d in days <==> d in days - {MaxOf(days)} || d == MaxOf(days);
    }
  }

  /** A listed manifest is skipped exactly when no READY day of its period holds a row. */
  lemma SkipsExactlyWhen(a: Archive, p: Period, start: int)
    ensures Skips(a, (p, start)) <==>
              forall d: int :: d >= 0 && d in a.minuteStatus && a.minuteStatus[d] == Ready && PeriodStart(p, d) == start ==> RowsAt(a.minutes, d) == []
  {
    hide Batch, PeriodStart;
    BatchEmptyExactlyWhen(a.minutes, ReadyDays(a, p, start));
  }

  lemma {:induction false} RebuildKeepsDays(a: Archive, c: Calendar, listed: seq<(Period, int)>)
    ensures RebuildAll(a, c, listed).0.minutes == a.minutes && RebuildAll(a, c, listed).0.minuteStatus == a.minuteStatus
    decreases |listed|
  {
    hide PeriodStart, Batch, ExpectedRowsInPeriod, MaxTradeDay, Merge, DeriveSeq;
    if |listed| > 0 {
      RebuildKeepsDays(a, c, listed[..|listed| - 1]);
    }
  }

  /** A rebuild of several manifests goes through exactly when the calendar can count for each one when its turn comes. */
  lemma {:induction false} RebuildCompletesExactlyWhen(a: Archive, c: Calendar, listed: seq<(Period, int)>)
    ensures RebuildAll(a, c, listed).1 <==>
              forall i :: 0 <= i < |listed| ==> Rebuild(RebuildAll(a, c, listed[..i]).0, c, listed[i].0, listed[i].1).1
    decreases |listed|
  {
    hide Rebuild;
    if |listed| > 0 {
      var rest := listed[..|listed| - 1];
      RebuildCompletesExactlyWhen(a, c, rest);
      assert forall i :: 0 <= i < |rest| ==> listed[..i] == rest[..i] && listed[i] == rest[i];
      if RebuildAll(a, c, rest).1 {
        assert listed[..|rest|] == rest;
      }
    }
  }

  class ChartArchiveWriterService {
    const calendar: Calendar
    var minutes: map<int, seq<Row>>
    var minuteStatus: map<int, Status>
    var derived: map<(Period, int), seq<Row>>
    var derivedStatus: map<(Period, int), Status>

    function State(): Archive
      reads this
    {
      Archive(minutes, minuteStatus, derived, derivedStatus)
    }

    constructor (calendar: Calendar)
      ensures this.calendar == calendar && State() == EMPTY
    {
      this.calendar := calendar;
      minutes := map[];
      minuteStatus := map[];
      derived := map[];
      derivedStatus := map[];
    }

    /** Merges derived rows into one period object, under the lock of that object. */
    method WriteMergedAggregatePartition(p: Period, tradeDay: nat, rows: seq<Row>, expectedRowCount: int) returns (ok: bool)
      modifies this
      ensures var was := old(State());
              var key := (p, PeriodStart(p, tradeDay));
              var merged := Merge(RowsAt(was.derived, key), rows);
              var corrected := ExpectedRowsInPeriod(calendar, p, key.1, MaxTradeDay(merged, tradeDay));
              && ok == corrected.Some?
              && State() == if !ok then was
                            else was.(derived := was.derived[key := merged],
                                       derivedStatus := was.derivedStatus[key :=
                                         if |merged| >= expectedRowCount && |merged| >= corrected.value then Ready else Partial])
    {
      hide ExpectedRowsInPeriod, PeriodStart, Merge, MaxTradeDay;
      var key := (p, PeriodStart(p, tradeDay));
      var merged := MergeRows(RowsAt(derived, key), rows);
      var maxTradeDate := MaxKstTradeDate(merged, tradeDay);
      var corrected := ExpectedRowsInPeriod(calendar, p, key.1, maxTradeDate);
      if corrected.None? {
        return false;
      }
      var effectiveExpected := if corrected.value > expectedRowCount then corrected.value else expectedRowCount;
      derived := derived[key := merged];
      derivedStatus := derivedStatus[key := if |merged| >= effectiveExpected then Ready else Partial];
      ok := true;
    }

    method WriteDerivedPeriod(p: Period, tradeDay: nat, oneMinuteRows: seq<Row>) returns (ok: bool)
      requires Distinct(oneMinuteRows)
      modifies this
      ensures (State(), ok) == WritePeriod(old(State()), calendar, p, tradeDay, oneMinuteRows)
    {
      hide ExpectedRowsInPeriod, PeriodStart, Merge, MaxTradeDay, Derived, ToMap, FromMap;
      var maxTradeDate := MaxKstTradeDate(oneMinuteRows, tradeDay);
      var rows := DeriveRows(oneMinuteRows, GrainOf(p));
      var expected := ExpectedRowsInPeriod(calendar, p, PeriodStart(p, tradeDay), maxTradeDate);
      if expected.None? {
        return false;
      }
      ok := WriteMergedAggregatePartition(p, tradeDay, rows, expected.value);
    }

    method WriteAggregatePartitions(tradeDay: nat, oneMinuteRows: seq<Row>)
      requires Distinct(oneMinuteRows)
      modifies this
      ensures State() == WriteAggregates(old(State()), calendar, tradeDay, oneMinuteRows)
    {
      hide WritePeriod, Distinct;
      if |oneMinuteRows| == 0 {
        return;
      }
      var ok := WriteDerivedPeriod(Month, tradeDay, oneMinuteRows);
      if ok {
        ok := WriteDerivedPeriod(Year, tradeDay, oneMinuteRows);
      }
    }

    /** The read-merge-write of a day object and of what it derives, under the lock of the day object. */
    method WriteMergedDay(day: nat, rows: seq<Row>, requireReady: bool)
      modifies this
      ensures State() == WriteDay(old(State()), calendar, day, rows, requireReady)
    {
      hide ExpectedOneMinuteRows, Merge, WriteAggregates, ToMap;
      var merged := MergeRows(RowsAt(minutes, day), rows);
      MergeMeaning(RowsAt(minutes, day), rows);
      var expected := ExpectedOneMinuteRows(calendar, day);
      if expected.None? {
        return;
      }
      var status := if |merged| >= expected.value then Ready else Partial;
      if requireReady && status != Ready {
        return;
      }
      minutes := minutes[day := merged];
      minuteStatus := minuteStatus[day := status];
      if status == Ready {
        WriteAggregatePartitions(day, merged);
      }
    }

    method ArchiveTradeDate(day: nat, candles: seq<Row>)
      modifies this
      ensures State() == Apply(old(State()), calendar, ArchiveSymbol(day, candles))
    {
      hide WriteDay, IsTradingDay, FilterSession;
      var trades := IsTradingDay(calendar, day);
      if trades == Some(true) {
        WriteMergedDay(day, FilterSession(candles), false);
      } else if trades == Some(false) {
        minuteStatus := minuteStatus[day := NoTrade];
      }
    }

    method ArchiveBackfillCandles(day: nat, candles: seq<Row>, requireReady: bool)
      modifies this
      ensures State() == Apply(old(State()), calendar, Backfill(day, candles, requireReady))
    {
      hide WriteDay, IsTradingDay, FilterSession;
      if IsTradingDay(calendar, day) != Some(true) {
        return;
      }
      var incoming := FilterSession(candles);
      if incoming == [] {
        return;
      }
      WriteMergedDay(day, incoming, requireReady);
    }

    /**
     * Rebuilds the listed manifests from the READY days of their periods, counting those rebuilt and those
     * with no rows. None is the calendar's error, which ends the loop.
     */
    method RebuildDerivedManifests(listed: seq<(Period, int)>) returns (counts: Option<(nat, nat)>)
      requires ObjectsOk(State())
      modifies this
      ensures (State(), counts.Some?) == RebuildAll(old(State()), calendar, listed)
      ensures counts.Some? ==>
                && counts.value.0 + counts.value.1 == |listed|
                && counts.value.1 == |SkippedOf(old(State()), listed)|
    {
      hide Rebuild, WritePeriod, Batch, ObjectsOk, ToMap, PeriodStart;
      var rebuilt, skipped := 0, 0;
      var i := 0;
      ghost var start := State();
      while i < |listed|
        invariant 0 <= i <= |listed| && rebuilt + skipped == i
        invariant (State(), true) == RebuildAll(start, calendar, listed[..i])
        invariant minutes == start.minutes && minuteStatus == start.minuteStatus
        invariant skipped == |SkippedOf(start, listed[..i])|
      {
        assert listed[..i + 1][..i] == listed[..i];
        var key := listed[i];
        SameObjectsOk(start, State());
        SkipsSame(start, State(), key);
        var ok, done := RebuildOne(key.0, key.1);
        if !ok {
          RebuildStops(start, calendar, listed, i + 1);
          return None;
        }
        if done {
          rebuilt := rebuilt + 1;
        } else {
          skipped := skipped + 1;
        }
        i := i + 1;
      }
      assert listed[..i] == listed;
      counts := Some((rebuilt, skipped));
    }

    method RebuildOne(p: Period, start: int) returns (ok: bool, done: bool)
      requires ObjectsOk(State())
      modifies this
      ensures (State(), ok) == Rebuild(old(State()), calendar, p, start)
      ensures minutes == old(minutes) && minuteStatus == old(minuteStatus)
      ensures done <==> !Skips(old(State()), (p, start))
    {
      hide WritePeriod, Batch, ToMap, ObjectsOk, PeriodStart, Distinct, Sorted;
      ghost var before := State();
      var days := ReadyDays(State(), p, start);
      var sources := Ascending(days);
      ConcatIsBatch(minutes, days);
      if |sources| == 0 {
        return true, false;
      }
      var rows: seq<Row> := [];
      var i := 0;
      while i < |sources|
        invariant 0 <= i <= |sources| && rows == Concat(minutes, sources[..i])
      {
        assert sources[..i + 1][..i] == sources[..i];
        rows := rows + RowsAt(minutes, sources[i]);
        i := i + 1;
      }
      assert sources[..i] == sources;
      if |rows| == 0 {
        return true, false;
      }
      var maxTradeDate := MaxKstTradeDate(rows, sources[|sources| - 1]);
      BatchSorted(State(), days);
      WriteKeepsDays(State(), calendar, p, maxTradeDate, rows);
      ok := WriteDerivedPeriod(p, maxTradeDate, rows);
      done := true;
    }
  }

  function SkippedOf(a: Archive, listed: seq<(Period, int)>): seq<(Period, int)> {
    if |listed| == 0 then []
    else
      SkippedOf(a, listed[..|listed| - 1]) + if Skips(a, listed[|listed| - 1]) then [listed[|listed| - 1]] else []
  }

  /** The skipped manifests are the listed ones that are skipped, as often as they are listed. */
  lemma {:induction false} SkippedMeaning(a: Archive, listed: seq<(Period, int)>, key: (Period, int))
    ensures multiset(SkippedOf(a, listed))[key] == if Skips(a, key) then multiset(listed)[key] else 0
    decreases |listed|
  {
    hide Skips;
    if |listed| > 0 {
      var rest, last := listed[..|listed| - 1], listed[|listed| - 1];
      SkippedMeaning(a, rest, key);
      assert listed == rest + [last];
    }
  }

  lemma SameObjectsOk(a: Archive, b: Archive)
    requires ObjectsOk(a) && b.minutes == a.minutes
    ensures ObjectsOk(b)
  {
  }

  lemma SkipsSame(a: Archive, b: Archive, key: (Period, int))
    requires b.minutes == a.minutes && b.minuteStatus == a.minuteStatus
    ensures Skips(a, key) <==> Skips(b, key)
  {
    assert ReadyDays(a, key.0, key.1) == ReadyDays(b, key.0, key.1);
  }
}
