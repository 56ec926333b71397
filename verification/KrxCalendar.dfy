/** The trading calendar: which days trade, how many rows each is expected to yield, and the periods. */
module KrxCalendar {
  import opened Wrappers
  import opened IntSets

  // ---------------------------------------------------------------- civil dates

  datatype Date = Date(year: int, month: int, day: int)

  function DaysInMonth(year: int, month: int): (n: int)
    ensures 28 <= n <= 31
  {
    if month == 2 then
      if year % 4 == 0 && (year % 100 != 0 || year % 400 == 0) then 29 else 28
    else if month in {4, 6, 9, 11} then 30
    else 31
  }

  function NextDate(d: Date): Date {
    if d.day < DaysInMonth(d.year, d.month) then Date(d.year, d.month, d.day + 1)
    else if d.month < 12 then Date(d.year, d.month + 1, 1)
    else Date(d.year + 1, 1, 1)
  }

  /** The date of a day number; day 0 is 1970-01-01. */
  function DateOf(day: nat): (d: Date)
    ensures 1 <= d.month <= 12 && 1 <= d.day <= 31
  {
    if day == 0 then Date(1970, 1, 1) else NextDate(DateOf(day - 1))
  }

  /** The order of the ISO date text. */
  predicate Before(a: Date, b: Date) {
    a.year < b.year || (a.year == b.year && (a.month < b.month || (a.month == b.month && a.day < b.day)))
  }

  /** Comparing dates as text compares day numbers. */
  lemma {:induction false} DatesAscend(a: nat, b: nat)
    requires a < b
    ensures Before(DateOf(a), DateOf(b))
    decreases b
  {
    if a < b - 1 {
      DatesAscend(a, b - 1);
    }
  }

  datatype Period = Month | Year

  predicate Opens(p: Period, d: Date) {
    d.day == 1 && (p == Year ==> d.month == 1)
  }

  /** The first day of the month or year a day lies in. */
  function PeriodStart(p: Period, day: nat): (start: nat)
    ensures start <= day && Opens(p, DateOf(start))
  {
    if Opens(p, DateOf(day)) then day else PeriodStart(p, day - 1)
  }

  predicate SamePeriod(p: Period, a: Date, b: Date) {
    a.year == b.year && (p == Month ==> a.month == b.month)
  }

  lemma {:induction false} StartInPeriod(p: Period, day: nat)
    ensures SamePeriod(p, DateOf(PeriodStart(p, day)), DateOf(day))
  {
    if !Opens(p, DateOf(day)) {
      StartInPeriod(p, day - 1);
    }
  }

  /** Two days share a partition key, the leading part of the date text, exactly when their period starts agree. */
  lemma PartitionKeyIsPeriod(p: Period, a: nat, b: nat)
    ensures SamePeriod(p, DateOf(a), DateOf(b)) <==> PeriodStart(p, a) == PeriodStart(p, b)
  {
    hide DateOf, PeriodStart;
    var s, t := PeriodStart(p, a), PeriodStart(p, b);
    StartInPeriod(p, a);
    StartInPeriod(p, b);
    StartsAgree(p, s, t);
  }

  lemma StartsAgree(p: Period, s: nat, t: nat)
    requires Opens(p, DateOf(s)) && Opens(p, DateOf(t))
    ensures SamePeriod(p, DateOf(s), DateOf(t)) <==> s == t
  {
    hide DateOf;
    if s < t {
      DatesAscend(s, t);
    } else if t < s {
      DatesAscend(t, s);
    }
  }

  lemma {:induction false} PeriodContiguous(p: Period, day: nat, x: nat)
    requires PeriodStart(p, day) <= x <= day
    ensures PeriodStart(p, x) == PeriodStart(p, day)
    decreases day
  {
    if x < day {
      PeriodContiguous(p, day - 1, x);
    }
  }

  lemma {:induction false} PeriodMonotone(p: Period, a: nat, b: nat)
    requires a <= b
    ensures PeriodStart(p, a) <= PeriodStart(p, b)
    ensures PeriodStart(p, b) <= a ==> PeriodStart(p, a) == PeriodStart(p, b)
    decreases b
  {
    if a < b {
      PeriodMonotone(p, a, b - 1);
    }
  }

  // ---------------------------------------------------------------- trading days

  const HOLIDAYS: set<Date> := {
    Date(2026, 1, 1), Date(2026, 2, 16), Date(2026, 2, 17), Date(2026, 2, 18), Date(2026, 3, 2),
    Date(2026, 5, 1), Date(2026, 5, 5), Date(2026, 5, 25), Date(2026, 6, 3), Date(2026, 7, 17),
    Date(2026, 9, 24), Date(2026, 9, 25), Date(2026, 10, 9), Date(2026, 12, 25), Date(2026, 12, 31),
    Date(2027, 1, 1), Date(2027, 2, 8), Date(2027, 3, 1), Date(2027, 5, 5), Date(2027, 5, 13),
    Date(2027, 6, 7), Date(2027, 8, 16), Date(2027, 10, 14), Date(2027, 10, 15), Date(2027, 12, 31)
  }

  const EARLY_CLOSE: map<Date, int> := map[Date(2026, 12, 30) := 12 * 60 + 30]

  const OPEN_MINUTE := 9 * 60
  const CLOSE_MINUTE := 15 * 60 + 20

  /** The closing time column: no text, text that is not two numbers, or a time. */
  datatype SessionClose = Unset | Garbled | TimeOfDay(hour: int, minute: int)

  datatype CalendarDay = CalendarDay(isTradingDay: bool, sessionClose: SessionClose)

  datatype Calendar = Calendar(dbDays: map<nat, CalendarDay>, requireDb: bool)

  predicate Weekend(day: nat) {
    (day + 4) % 7 == 0 || (day + 4) % 7 == 6
  }

  /** None is the error raised for a day missing from a calendar that must come from the database. */
  function IsTradingDay(c: Calendar, day: nat): Option<bool> {
    if day in c.dbDays then Some(c.dbDays[day].isTradingDay)
    else if c.requireDb then None
    else Some(!Weekend(day) && DateOf(day) !in HOLIDAYS)
  }

  function SessionCloseMinute(c: Calendar, day: nat): int {
    if day in c.dbDays && c.dbDays[day].sessionClose != Unset then
      match c.dbDays[day].sessionClose
      case TimeOfDay(hour, minute) => hour * 60 + minute
      case _ => CLOSE_MINUTE
    else if DateOf(day) in EARLY_CLOSE then EARLY_CLOSE[DateOf(day)]
    else CLOSE_MINUTE
  }

  function CeilDiv(n: int, d: int): int
    requires d > 0
  {
    -((-n) / d)
  }

  function ExpectedOneMinuteRows(c: Calendar, day: nat): Option<int> {
    match IsTradingDay(c, day)
    case None => None
    case Some(false) => Some(0)
    case Some(true) => Some(SessionCloseMinute(c, day) - OPEN_MINUTE)
  }

  function ExpectedHourlyRows(c: Calendar, day: nat): Option<int> {
    match ExpectedOneMinuteRows(c, day)
    case None => None
    case Some(n) => Some(CeilDiv(n, 60))
  }

  /** The trading days from `first` to `last` inclusive, in order. */
  function TradingDays(c: Calendar, first: nat, last: int): Option<seq<nat>>
    decreases last - first
  {
    if last < first then Some([])
    else
      match TradingDays(c, first, last - 1)
      case None => None
      case Some(before) =>
        match IsTradingDay(c, last)
        case None => None
        case Some(trades) => Some(if trades then before + [last] else before)
  }

  function SumHourly(c: Calendar, days: seq<nat>): Option<int> {
    if |days| == 0 then Some(0)
    else
      match (SumHourly(c, days[..|days| - 1]), ExpectedHourlyRows(c, days[|days| - 1]))
      case (Some(sum), Some(n)) => Some(sum + n)
      case _ => None
  }

  function ExpectedRowsInPeriod(c: Calendar, p: Period, start: nat, until: int): Option<int> {
    match TradingDays(c, start, until)
    case None => None
    case Some(days) => if p == Month then SumHourly(c, days) else Some(|days|)
  }

  // ---------------------------------------------------------------- where the calendar answers

  /** The calendar has an answer for every day of a range. */
  predicate Answers(c: Calendar, first: nat, last: int) {
    forall day: nat :: first <= day <= last ==> IsTradingDay(c, day).Some?
  }

  predicate Trades(c: Calendar, day: nat) {
    IsTradingDay(c, day) == Some(true)
  }

  lemma FallbackAnswers(c: Calendar, first: nat, last: int)
    ensures !c.requireDb ==> Answers(c, first, last)
  {
    hide DateOf;
  }

  /** The calendar answers from the start of the day's period up to the day, which is what counting up to it asks for. */
  predicate Reached(c: Calendar, p: Period, day: nat) {
    Answers(c, PeriodStart(p, day), day)
  }

  lemma ReachedEarlier(c: Calendar, p: Period, day: nat, later: nat)
    requires day <= later && PeriodStart(p, day) == PeriodStart(p, later) && Reached(c, p, later)
    ensures Reached(c, p, day)
  {
    hide IsTradingDay;
  }

  lemma {:induction false} YearStartsFirst(day: nat)
    ensures PeriodStart(Year, day) <= PeriodStart(Month, day)
    decreases day
  {
    if !Opens(Month, DateOf(day)) {
      YearStartsFirst(day - 1);
    }
  }

  lemma YearReachesMonth(c: Calendar, day: nat)
    ensures Reached(c, Year, day) ==> Reached(c, Month, day)
  {
    hide IsTradingDay, PeriodStart;
    YearStartsFirst(day);
  }

  /** The trading days of a range, as a set. */
  function TradingSet(c: Calendar, first: nat, last: int): (s: set<int>)
    ensures forall d: int :: d in s <==> first <= d <= last && Trades(c, d)
  {
    set d: int | d in Interval(first, last + 1) && Trades(c, d)
  }

  function HoursOf(c: Calendar, day: nat): int {
    CeilDiv(SessionCloseMinute(c, day) - OPEN_MINUTE, 60)
  }

  predicate DayNumbers(days: set<int>) {
    forall d: int :: d in days ==> d >= 0
  }

  function SumHours(c: Calendar, days: set<int>): int
    requires DayNumbers(days)
    decreases |days|
  {
    if days == {} then 0 else SumHours(c, days - {MaxOf(days)}) + HoursOf(c, MaxOf(days))
  }

  lemma TradingSetStep(c: Calendar, first: nat, last: int)
    requires first <= last
    ensures var s, t := TradingSet(c, first, last), TradingSet(c, first, last - 1);
            && DayNumbers(s) && DayNumbers(t)
            && (!Trades(c, last) ==> s == t)
            && (Trades(c, last) ==> |s| == |t| + 1 && SumHours(c, s) == SumHours(c, t) + HoursOf(c, last))
  {
    hide Trades, HoursOf, Interval;
    var s, t := TradingSet(c, first, last), TradingSet(c, first, last - 1);
    if Trades(c, last) {
      assert s == t + {last} && last !in t;
      assert MaxOf(s) == last && s - {last} == t;
    } else {
      assert s == t;
    }
  }

  /** The loop lists exactly the trading days of the range, so the expected counts are sums over that set. */
  lemma {:induction false} RangeIsSet(c: Calendar, first: nat, last: int)
    requires Answers(c, first, last)
    ensures TradingDays(c, first, last).Some?
    ensures DayNumbers(TradingSet(c, first, last))
    ensures |TradingDays(c, first, last).value| == |TradingSet(c, first, last)|
    ensures SumHourly(c, TradingDays(c, first, last).value) == Some(SumHours(c, TradingSet(c, first, last)))
    ensures forall d: nat :: d in TradingDays(c, first, last).value <==> first <= d <= last && Trades(c, d)
    decreases last - first
  {
    hide IsTradingDay, SessionCloseMinute, Interval, CeilDiv, TradingSet, SumHours, HoursOf;
    if last < first {
      EmptyRange(c, first, last);
    } else {
      RangeIsSet(c, first, last - 1);
      TradingSetStep(c, first, last);
      var before := TradingDays(c, first, last - 1).value;
      assert IsTradingDay(c, last).Some?;
      if Trades(c, last) {
        assert (before + [last])[..|before|] == before;
        HourlyOfTradingDay(c, last);
      }
    }
  }

  lemma EmptyRange(c: Calendar, first: nat, last: int)
    requires last < first
    ensures TradingSet(c, first, last) == {} && SumHours(c, {}) == 0
  {
  }

  lemma HourlyOfTradingDay(c: Calendar, day: nat)
    requires Trades(c, day)
    ensures ExpectedHourlyRows(c, day) == Some(HoursOf(c, day))
  {
    hide DateOf;
  }

  lemma ExpectedIsSum(c: Calendar, p: Period, start: nat, until: int)
    requires Answers(c, start, until)
    ensures DayNumbers(TradingSet(c, start, until))
    ensures ExpectedRowsInPeriod(c, p, start, until)
            == Some(if p == Month then SumHours(c, TradingSet(c, start, until)) else |TradingSet(c, start, until)|)
  {
    RangeIsSet(c, start, until);
  }

  /** Counting the rows to expect raises an error exactly when some day of the range has no answer. */
  lemma ExpectedExactlyWhen(c: Calendar, p: Period, start: nat, until: int)
    ensures ExpectedRowsInPeriod(c, p, start, until).Some? <==> Answers(c, start, until)
  {
    hide IsTradingDay, TradingDays, SumHourly, TradingSet, SumHours;
    if Answers(c, start, until) {
      ExpectedIsSum(c, p, start, until);
    } else {
      var day: nat :| start <= day <= until && IsTradingDay(c, day).None?;
      StaysMissing(c, start, day, until);
    }
  }

  /** Taking days away from a set whose days all count for something makes the sum strictly smaller. */
  lemma {:induction false} SumHoursSubset(c: Calendar, a: set<int>, b: set<int>)
    requires DayNumbers(a) && DayNumbers(b) && a <= b && forall d: int :: d in b ==> HoursOf(c, d) > 0
    ensures SumHours(c, a) <= SumHours(c, b)
    ensures SumHours(c, a) == SumHours(c, b) ==> a == b
    decreases |b|
  {
    hide HoursOf;
    if b != {} {
      var top := MaxOf(b);
      if top in a {
        assert MaxOf(a) == top;
        SumHoursSubset(c, a - {top}, b - {top});
        assert a == (a - {top}) + {top} && b == (b - {top}) + {top};
      } else {
        assert a <= b - {top};
        SumHoursSubset(c, a, b - {top});
      }
    } else {
      assert a == {};
    }
  }

  // ---------------------------------------------------------------- the service

  /** The table a query result becomes: the last row of a day stands. */
  function Table(rows: seq<(nat, CalendarDay)>): map<nat, CalendarDay> {
    if |rows| == 0 then map[]
    else Table(rows[..|rows| - 1])[rows[|rows| - 1].0 := rows[|rows| - 1].1]
  }

  lemma {:induction false} TableKeepsLast(rows: seq<(nat, CalendarDay)>, day: nat)
    ensures day in Table(rows) <==> exists i :: 0 <= i < |rows| && rows[i].0 == day
    ensures forall i :: 0 <= i < |rows| && rows[i].0 == day && (forall j :: i < j < |rows| ==> rows[j].0 != day) ==>
              day in Table(rows) && Table(rows)[day] == rows[i].1
    decreases |rows|
  {
    if |rows| > 0 {
      var rest := rows[..|rows| - 1];
      TableKeepsLast(rest, day);
      assert forall i :: 0 <= i < |rest| ==> rest[i] == rows[i];
      if rows[|rows| - 1].0 != day && day in Table(rest) {
        var i :| 0 <= i < |rest| && rest[i].0 == day;
        assert rows[i].0 == day;
      }
    }
  }

  class KrxCalendarService {
    var dbDays: map<nat, CalendarDay>
    const requireDb: bool

    function State(): Calendar
      reads this
    {
      Calendar(dbDays, requireDb)
    }

    constructor (requireDb: bool)
      ensures State() == Calendar(map[], requireDb)
    {
      this.requireDb := requireDb;
      dbDays := map[];
    }

    /** Replaces the table with what the query returned; a failed query leaves it as it was. */
    method RefreshFromDb(rows: Option<seq<(nat, CalendarDay)>>)
      modifies this
      ensures dbDays == if rows.Some? then Table(rows.value) else old(dbDays)
    {
      if rows.Some? {
        dbDays := map[];
        var n := 0;
        while n < |rows.value|
          invariant 0 <= n <= |rows.value| && dbDays == Table(rows.value[..n])
        {
          assert rows.value[..n + 1][..n] == rows.value[..n];
          dbDays := dbDays[rows.value[n].0 := rows.value[n].1];
          n := n + 1;
        }
        assert rows.value[..n] == rows.value;
      }
    }

    /** The cursor loop, which raises at the first day the calendar cannot answer for. */
    method TradingDaysInRange(first: nat, last: int) returns (days: Option<seq<nat>>)
      ensures days == TradingDays(State(), first, last)
    {
      hide IsTradingDay;
      var out: seq<nat> := [];
      var cursor := first;
      while cursor <= last
        invariant first <= cursor && (cursor <= last + 1 || cursor == first)
        invariant TradingDays(State(), first, cursor - 1) == Some(out)
      {
        var trades := IsTradingDay(State(), cursor);
        if trades.None? {
          StaysMissing(State(), first, cursor, last);
          return None;
        }
        if trades.value {
          out := out + [cursor];
        }
        cursor := cursor + 1;
      }
      days := Some(out);
    }
  }

  lemma {:induction false} StaysMissing(c: Calendar, first: nat, at: nat, last: int)
    requires first <= at <= last && IsTradingDay(c, at).None?
    ensures TradingDays(c, first, last).None?
    decreases last - at
  {
    hide IsTradingDay;
    if at < last {
      StaysMissing(c, first, at, last - 1);
    }
  }
}
