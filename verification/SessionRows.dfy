/**
 * Readiness by counting. A day object is READY when it has at least as many rows as the session has
 * minutes; this module says exactly when that means that every session minute is there.
 */
module SessionRows {
  import opened Wrappers
  import opened IntSets
  import opened CandleRows
  import opened KrxCalendar
  import opened KstTime
  import opened Truncation

  /** The minute of the KST day a bucket falls in. */
  function MinuteOfDay(bucket: int): int {
    (bucket + KST_OFFSET_MS) % DAY_MS / MINUTE_MS
  }

  /** The filter every stored minute row passes: continuous trading, 09:00 up to but not including 15:20. */
  predicate InContinuousSession(bucket: int) {
    OPEN_MINUTE <= MinuteOfDay(bucket) < CLOSE_MINUTE
  }

  predicate Aligned(bucket: int) {
    bucket % MINUTE_MS == 0
  }

  /**
   * The Korean clock over every instant, x milliseconds into a UTC day: the Korean date changes at 15:00
   * UTC, the clock is nine hours ahead, and the session filter passes the first 380 minutes of the UTC day.
   */
  lemma KstClock(day: int, x: int)
    requires 0 <= x < 86400000
    ensures var t := 86400000 * day + x;
            && TradeDay(t) == (if x < 54000000 then day else day + 1)
            && MinuteOfDay(t) == (if x < 54000000 then 540 + x / 60000 else x / 60000 - 900)
            && (InContinuousSession(t) <==> x < 22800000)
  {
    var t := 86400000 * day + x;
    if x < 54000000 {
      DivUnique(t + KST_OFFSET_MS, DAY_MS, day, x + 32400000);
      DivUnique(x + 32400000, MINUTE_MS, 540 + x / 60000, x % 60000);
    } else {
      DivUnique(t + KST_OFFSET_MS, DAY_MS, day + 1, x - 54000000);
      DivUnique(x - 54000000, MINUTE_MS, x / 60000 - 900, x % 60000);
    }
  }

  function BarAt(day: int, minute: int): int {
    day * DAY_MS - KST_OFFSET_MS + minute * MINUTE_MS
  }

  lemma BarFacts(day: int, minute: int)
    requires 0 <= minute < 1440
    ensures TradeDay(BarAt(day, minute)) == day && MinuteOfDay(BarAt(day, minute)) == minute && Aligned(BarAt(day, minute))
  {
    DivUnique(BarAt(day, minute) + KST_OFFSET_MS, DAY_MS, day, minute * MINUTE_MS);
    DivUnique(minute * MINUTE_MS, MINUTE_MS, minute, 0);
    DivUnique(BarAt(day, minute), MINUTE_MS, day * 1440 - 540 + minute, 0);
  }

  lemma BarOf(bucket: int)
    requires Aligned(bucket)
    ensures bucket == BarAt(TradeDay(bucket), MinuteOfDay(bucket)) && 0 <= MinuteOfDay(bucket) < 1440
  {
    var minutes := bucket / MINUTE_MS + 540;
    var day, minute := minutes / 1440, minutes % 1440;
    assert bucket == BarAt(day, minute);
    BarFacts(day, minute);
  }

  /** The minute bars of a day from minute lo up to but not including hi. */
  function Bars(day: int, lo: int, hi: int): (s: set<int>)
    requires 0 <= lo && hi <= 1440
    ensures forall b :: b in s <==> Aligned(b) && TradeDay(b) == day && lo <= MinuteOfDay(b) < hi
    ensures |s| == if lo <= hi then hi - lo else 0
    decreases hi - lo
  {
    if lo >= hi then {}
    else
      BarFacts(day, hi - 1);
      var rest := Bars(day, lo, hi - 1);
      assert forall b :: Aligned(b) && TradeDay(b) == day && MinuteOfDay(b) == hi - 1 ==> b == BarAt(day, hi - 1) by {
        forall b | Aligned(b) && TradeDay(b) == day && MinuteOfDay(b) == hi - 1 ensures b == BarAt(day, hi - 1) {
          BarOf(b);
        }
      }
      rest + {BarAt(day, hi - 1)}
  }

  /** A day object as the writers keep it: minute-aligned bars of its own date, inside the session filter. */
  predicate Stored(day: int, keys: set<int>) {
    forall b :: b in keys ==> Aligned(b) && TradeDay(b) == day && InContinuousSession(b)
  }

  /** Every minute of a session that closes at `close` is present. */
  ghost predicate Complete(day: int, close: int, keys: set<int>) {
    forall m :: OPEN_MINUTE <= m < close ==> BarAt(day, m) in keys
  }

  predicate CountsReady(close: int, keys: set<int>) {
    |keys| >= close - OPEN_MINUTE
  }

  lemma CompleteIsSubset(day: int, close: int, keys: set<int>)
    requires close <= 1440
    ensures Complete(day, close, keys) <==> Bars(day, OPEN_MINUTE, close) <= keys
  {
    hide BarAt, TradeDay, MinuteOfDay, Aligned;
    var s := Bars(day, OPEN_MINUTE, close);
    forall m | OPEN_MINUTE <= m < close ensures BarAt(day, m) in s {
      BarFacts(day, m);
    }
    if Complete(day, close, keys) {
      forall b | b in s ensures b in keys {
        BarOf(b);
      }
    }
  }

  /** The general rule: the count is reached exactly when strays make up for every missing minute. */
  lemma ReadyWhenStraysCoverMissing(day: int, close: int, keys: set<int>)
    requires OPEN_MINUTE <= close <= 1440
    ensures var session := Bars(day, OPEN_MINUTE, close);
            CountsReady(close, keys) <==> |keys - session| >= |session - keys|
  {
    SizeByDifference(keys, Bars(day, OPEN_MINUTE, close));
  }

  /** With no bar outside the session, the count is reached exactly when the day is complete. */
  lemma ReadyIsCompleteInSession(day: int, close: int, keys: set<int>)
    requires close <= 1440 && keys <= Bars(day, OPEN_MINUTE, close)
    ensures CountsReady(close, keys) <==> Complete(day, close, keys)
    ensures CountsReady(close, keys) ==> keys == Bars(day, OPEN_MINUTE, close)
  {
    hide Complete, Bars, TradeDay, MinuteOfDay, Aligned, BarAt;
    SubsetSize(keys, Bars(day, OPEN_MINUTE, close));
    CompleteIsSubset(day, close, keys);
  }

  lemma StoredIsInFilter(day: int, keys: set<int>)
    ensures Stored(day, keys) <==> keys <= Bars(day, OPEN_MINUTE, CLOSE_MINUTE)
  {
    hide TradeDay, MinuteOfDay, Aligned;
    var session := Bars(day, OPEN_MINUTE, CLOSE_MINUTE);
    assert forall b :: b in session <==> Aligned(b) && TradeDay(b) == day && InContinuousSession(b);
    assert keys <= session ==> forall b :: b in keys ==> b in session;
    assert (forall b :: b in keys ==> b in session) ==> keys <= session;
  }

  /** A day whose session is to close after 15:20 is never READY: the filter drops the bars it would need. */
  lemma LateCloseNeverReady(day: int, close: int, keys: set<int>)
    requires Stored(day, keys) && CLOSE_MINUTE < close
    ensures !CountsReady(close, keys) && !Complete(day, close, keys)
  {
    hide TradeDay;
    StoredIsInFilter(day, keys);
    SubsetSize(keys, Bars(day, OPEN_MINUTE, CLOSE_MINUTE));
    BarFacts(day, CLOSE_MINUTE);
    assert BarAt(day, CLOSE_MINUTE) !in keys;
  }

  /** The object of a full ordinary session without its first minute. */
  lemma EarlyCloseReadyButIncomplete(day: int, close: int) returns (keys: set<int>)
    requires OPEN_MINUTE < close < CLOSE_MINUTE
    ensures Stored(day, keys) && CountsReady(close, keys) && !Complete(day, close, keys)
  {
    hide TradeDay, MinuteOfDay;
    BarFacts(day, OPEN_MINUTE);
    keys := Bars(day, OPEN_MINUTE, CLOSE_MINUTE) - {BarAt(day, OPEN_MINUTE)};
    StoredIsInFilter(day, keys);
    assert |keys| == CLOSE_MINUTE - OPEN_MINUTE - 1;
    assert BarAt(day, OPEN_MINUTE) !in keys;
  }

  ghost predicate ReadyMeansComplete(day: int, close: int) {
    forall keys :: Stored(day, keys) ==> (CountsReady(close, keys) <==> Complete(day, close, keys))
  }

  /**
   * READY means complete, for every object the filter lets be stored, exactly for sessions that close
   * at 15:20 or later or are empty. An early close leaves room for stray bars that pass the filter.
   */
  lemma WhenReadyMeansComplete(day: int, close: int)
    ensures ReadyMeansComplete(day, close) <==> close <= OPEN_MINUTE || CLOSE_MINUTE <= close
  {
    hide Stored, Complete, CountsReady;
    if OPEN_MINUTE < close < CLOSE_MINUTE {
      var keys := EarlyCloseReadyButIncomplete(day, close);
      assert Stored(day, keys);
    } else {
      forall keys | Stored(day, keys) ensures CountsReady(close, keys) <==> Complete(day, close, keys) {
        if close <= OPEN_MINUTE {
          EmptySessionReady(day, close, keys);
        } else if close == CLOSE_MINUTE {
          StoredIsInFilter(day, keys);
          ReadyIsCompleteInSession(day, close, keys);
        } else {
          LateCloseNeverReady(day, close, keys);
        }
      }
    }
  }

  lemma EmptySessionReady(day: int, close: int, keys: set<int>)
    requires close <= OPEN_MINUTE
    ensures CountsReady(close, keys) && Complete(day, close, keys)
  {
  }

  // ---------------------------------------------------------------- hours of a complete day

  /** The hour bars of a day from hour lo up to but not including hi, at the top of each hour. */
  function HourBars(day: int, lo: int, hi: int): (s: set<int>)
    requires 0 <= lo && hi <= 24
    ensures forall b :: b in s <==> b % HOUR_MS == 0 && TradeDay(b) == day && lo <= MinuteOfDay(b) / 60 < hi
    ensures |s| == if lo <= hi then hi - lo else 0
    decreases hi - lo
  {
    if lo >= hi then {}
    else
      TopOfHour(day, hi - 1);
      var rest := HourBars(day, lo, hi - 1);
      assert forall b :: b % HOUR_MS == 0 && TradeDay(b) == day && MinuteOfDay(b) / 60 == hi - 1 ==> b == BarAt(day, 60 * (hi - 1)) by {
        forall b | b % HOUR_MS == 0 && TradeDay(b) == day && MinuteOfDay(b) / 60 == hi - 1 ensures b == BarAt(day, 60 * (hi - 1)) {
          HourBarOf(b);
        }
      }
      rest + {BarAt(day, 60 * (hi - 1))}
  }

  lemma TopOfHour(day: int, hour: int)
    requires 0 <= hour < 24
    ensures BarAt(day, 60 * hour) % HOUR_MS == 0
    ensures TradeDay(BarAt(day, 60 * hour)) == day && MinuteOfDay(BarAt(day, 60 * hour)) == 60 * hour
  {
    BarFacts(day, 60 * hour);
    DivUnique(BarAt(day, 60 * hour), HOUR_MS, 24 * day - 9 + hour, 0);
  }

  lemma HourBarOf(bucket: int)
    requires bucket % HOUR_MS == 0
    ensures bucket == BarAt(TradeDay(bucket), 60 * (MinuteOfDay(bucket) / 60)) && 0 <= MinuteOfDay(bucket) < 1440
  {
    var hours := bucket / HOUR_MS + 9;
    var day, hour := hours / 24, hours % 24;
    assert bucket == BarAt(day, 60 * hour);
    BarFacts(day, 60 * hour);
  }

  lemma HourOfBar(day: int, minute: int)
    requires 0 <= minute < 1440
    ensures GroupOf(Hour, BarAt(day, minute)) == BarAt(day, 60 * (minute / 60))
  {
    var h, r := minute / 60, minute % 60;
    DivUnique(BarAt(day, minute), HOUR_MS, 24 * day - 9 + h, r * MINUTE_MS);
  }

  /** The hour of a bar is an hour bar of the same hour. */
  lemma HourInSession(day: int, bucket: int)
    requires Aligned(bucket) && TradeDay(bucket) == day
    ensures var hour := GroupOf(Hour, bucket);
            hour % HOUR_MS == 0 && TradeDay(hour) == day && MinuteOfDay(hour) / 60 == MinuteOfDay(bucket) / 60
  {
    hide GroupOf, BarAt, TradeDay, MinuteOfDay, Aligned;
    BarOf(bucket);
    HourOfBar(day, MinuteOfDay(bucket));
    TopOfHour(day, MinuteOfDay(bucket) / 60);
  }

  /** An hour bar is the hour of the bar at its top. */
  lemma HourHasBar(day: int, hour: int)
    requires hour % HOUR_MS == 0 && TradeDay(hour) == day
    ensures var top := 60 * (MinuteOfDay(hour) / 60);
            && 0 <= top < 1440 && MinuteOfDay(BarAt(day, top)) == top && TradeDay(BarAt(day, top)) == day
            && Aligned(BarAt(day, top)) && GroupOf(Hour, BarAt(day, top)) == hour
  {
    hide GroupOf, BarAt, TradeDay, MinuteOfDay, Aligned;
    HourBarOf(hour);
    var top := 60 * (MinuteOfDay(hour) / 60);
    BarFacts(day, top);
    HourOfBar(day, top);
  }

  /** A complete day derives exactly ceil(n / 60) hourly rows, n being the minutes of its session. */
  lemma CompleteDayHours(day: int, close: int, m: map<int, Row>)
    requires OPEN_MINUTE < close <= 1440 && m.Keys == Bars(day, OPEN_MINUTE, close)
    ensures |Derived(m, Hour)| == CeilDiv(close - OPEN_MINUTE, 60) > 0
  {
    hide GroupOf, BarAt, TradeDay, MinuteOfDay, Aligned, Bars, HourBars, Derived;
    var top := (close - 1) / 60 + 1;
    SessionHours(day, close, top, m);
    DerivedSize(m);
  }

  lemma DerivedSize(m: map<int, Row>)
    ensures |Derived(m, Hour)| == |Groups(m, Hour)|
  {
    hide GroupOf;
    assert |Derived(m, Hour)| == |Derived(m, Hour).Keys|;
  }

  lemma SessionHours(day: int, close: int, top: int, m: map<int, Row>)
    requires OPEN_MINUTE < close <= 1440 && m.Keys == Bars(day, OPEN_MINUTE, close) && top == (close - 1) / 60 + 1
    ensures Groups(m, Hour) == HourBars(day, 9, top)
  {
    hide GroupOf, BarAt, TradeDay, MinuteOfDay, Aligned, Bars, HourBars;
    forall b | b in m ensures GroupOf(Hour, b) in HourBars(day, 9, top) {
      HourInSession(day, b);
    }
    forall g | g in HourBars(day, 9, top) ensures g in Groups(m, Hour) {
      HourHasBar(day, g);
      assert BarAt(day, 60 * (MinuteOfDay(g) / 60)) in m;
    }
  }
}
