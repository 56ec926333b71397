/**
 * The calendar against definitions of its own: the weekday counted on from the epoch, and the number of
 * a date by the leap rule of the Gregorian calendar. Both pin down which days the built-in table trades.
 */
module CalendarDates {
  import opened Wrappers
  import opened IntSets
  import opened KrxCalendar
  import opened Truncation

  // ---------------------------------------------------------------- weekdays

  datatype Weekday = Monday | Tuesday | Wednesday | Thursday | Friday | Saturday | Sunday

  function Tomorrow(w: Weekday): Weekday {
    match w
    case Monday => Tuesday
    case Tuesday => Wednesday
    case Wednesday => Thursday
    case Thursday => Friday
    case Friday => Saturday
    case Saturday => Sunday
    case Sunday => Monday
  }

  /** Day 0, the first of January 1970, was a Thursday. */
  function WeekdayOf(day: nat): Weekday {
    if day == 0 then Thursday else Tomorrow(WeekdayOf(day - 1))
  }

  function Nth(n: int): Weekday {
    if n == 0 then Monday
    else if n == 1 then Tuesday
    else if n == 2 then Wednesday
    else if n == 3 then Thursday
    else if n == 4 then Friday
    else if n == 5 then Saturday
    else Sunday
  }

  lemma {:induction false} WeekdayCounts(day: nat)
    ensures WeekdayOf(day) == Nth((day + 3) % 7)
  {
    if day > 0 {
      WeekdayCounts(day - 1);
    }
  }

  predicate OnWeekend(day: nat) { WeekdayOf(day).Saturday? || WeekdayOf(day).Sunday? }

  lemma WeekendIsWeekend(day: nat)
    ensures Weekend(day) <==> OnWeekend(day)
  {
    hide WeekdayOf;
    WeekdayCounts(day);
  }

  /** Without a row of its own, and unless rows are demanded, a day trades exactly when it is no weekend and not listed. */
  lemma TradesExactlyWhen(c: Calendar, day: nat)
    ensures Trades(c, day) <==>
              if day in c.dbDays then c.dbDays[day].isTradingDay
              else !c.requireDb && !OnWeekend(day) && DateOf(day) !in HOLIDAYS
    ensures IsTradingDay(c, day).None? <==> day !in c.dbDays && c.requireDb
  {
    hide OnWeekend, DateOf;
    WeekendIsWeekend(day);
  }

  // ---------------------------------------------------------------- dates

  predicate Leap(year: int) { year % 4 == 0 && (year % 100 == 0 ==> year % 400 == 0) }

  /** The leap years up to and including a year. */
  function Leaps(year: int): int { year / 4 - year / 100 + year / 400 }

  const MONTH_STARTS := [0, 31, 59, 90, 120, 151, 181, 212, 243, 273, 304, 334, 365]

  /** The days of a year before a month. */
  function DaysBeforeMonth(year: int, month: int): int
    requires 1 <= month <= 13
  {
    MONTH_STARTS[month - 1] + if month > 2 && Leap(year) then 1 else 0
  }

  function DaysBeforeYear(year: int): int { 365 * (year - 1970) + Leaps(year - 1) - Leaps(1969) }

  predicate ValidDate(d: Date) {
    && d.year >= 1970 && 1 <= d.month <= 12
    && 1 <= d.day <= DaysBeforeMonth(d.year, d.month + 1) - DaysBeforeMonth(d.year, d.month)
  }

  /** The days from the epoch to a date, in closed form. */
  function DayNumber(d: Date): int
    requires ValidDate(d)
  {
    DaysBeforeYear(d.year) + DaysBeforeMonth(d.year, d.month) + d.day - 1
  }

  lemma LeapCounts(year: int)
    ensures Leaps(year) - Leaps(year - 1) == if Leap(year) then 1 else 0
  {
    Quotients(year, 4);
    Quotients(year, 100);
    Quotients(year, 400);
    Divides(year);
  }

  lemma Quotients(n: int, k: int)
    requires k > 1
    ensures n / k - (n - 1) / k == if n % k == 0 then 1 else 0
  {
    var q, r := n / k, n % k;
    assert n == q * k + r;
    if r == 0 {
      assert n - 1 == (q - 1) * k + (k - 1);
      DivUnique(n - 1, k, q - 1, k - 1);
    } else {
      DivUnique(n - 1, k, q, r - 1);
    }
  }

  lemma Divides(year: int)
    ensures year % 400 == 0 ==> year % 100 == 0
    ensures year % 100 == 0 ==> year % 4 == 0
  {
    if year % 400 == 0 {
      DivUnique(year, 100, 4 * (year / 400), 0);
    }
    if year % 100 == 0 {
      DivUnique(year, 4, 25 * (year / 100), 0);
    }
  }

  lemma MonthLength(year: int, month: int)
    requires 1 <= month <= 12
    ensures DaysInMonth(year, month) == DaysBeforeMonth(year, month + 1) - DaysBeforeMonth(year, month)
  {
    Divides(year);
  }

  lemma YearLength(year: int)
    ensures DaysBeforeYear(year + 1) == DaysBeforeYear(year) + DaysBeforeMonth(year, 13)
  {
    hide Leaps;
    LeapCounts(year);
  }

  lemma NextIsNext(d: Date)
    requires ValidDate(d)
    ensures ValidDate(NextDate(d)) && DayNumber(NextDate(d)) == DayNumber(d) + 1
  {
    hide DaysInMonth, DaysBeforeYear, Leap;
    MonthLength(d.year, d.month);
    YearLength(d.year);
  }

  /** The dates the calendar steps through carry their numbers. */
  lemma {:induction false} DateHasNumber(day: nat)
    ensures ValidDate(DateOf(day)) && DayNumber(DateOf(day)) == day
  {
    hide NextDate, ValidDate;
    if day == 0 {
      Epoch();
    } else {
      DateHasNumber(day - 1);
      NextIsNext(DateOf(day - 1));
    }
  }

  lemma Epoch()
    ensures ValidDate(Date(1970, 1, 1)) && DayNumber(Date(1970, 1, 1)) == 0
  {
  }

  lemma {:induction false} YearsAscend(a: int, b: int)
    requires a <= b
    ensures DaysBeforeYear(a) + 365 * (b - a) <= DaysBeforeYear(b)
    decreases b - a
  {
    hide DaysBeforeYear;
    if a < b {
      YearsAscend(a, b - 1);
      YearLength(b - 1);
    }
  }

  lemma WithinYear(d: Date)
    requires ValidDate(d)
    ensures DaysBeforeYear(d.year) <= DayNumber(d) < DaysBeforeYear(d.year + 1)
  {
    hide DaysBeforeYear, Leap;
    YearLength(d.year);
  }

  /** An earlier date has a smaller number. */
  lemma NumbersAscend(a: Date, b: Date)
    requires ValidDate(a) && ValidDate(b) && Before(a, b)
    ensures DayNumber(a) < DayNumber(b)
  {
    hide DaysBeforeYear, Leap;
    if a.year < b.year {
      WithinYear(a);
      WithinYear(b);
      YearsAscend(a.year + 1, b.year);
    }
  }

  /** A day has a given date exactly when the date is one of the calendar's from 1970 on and has that number. */
  lemma DateExactlyWhen(day: nat, d: Date)
    ensures DateOf(day) == d <==> ValidDate(d) && DayNumber(d) == day
  {
    hide DateOf, ValidDate, DayNumber;
    DateHasNumber(day);
    var e := DateOf(day);
    if ValidDate(d) && d != e {
      if Before(d, e) {
        NumbersAscend(d, e);
      } else {
        NumbersAscend(e, d);
      }
    }
  }

  // ---------------------------------------------------------------- the built-in table

  const BUILT_IN := Calendar(map[], false)

  /** The expected counts of a trading day: 380 minutes and 7 hours, but for the early close in the table. */
  lemma ExpectedOfTradingDay(c: Calendar, day: nat)
    requires Trades(c, day)
    ensures day in c.dbDays && c.dbDays[day].sessionClose.TimeOfDay? ==>
              ExpectedOneMinuteRows(c, day) == Some(60 * c.dbDays[day].sessionClose.hour + c.dbDays[day].sessionClose.minute - 540)
    ensures day in c.dbDays && c.dbDays[day].sessionClose.Garbled? ==> ExpectedOneMinuteRows(c, day) == Some(380)
    ensures day !in c.dbDays || c.dbDays[day].sessionClose.Unset? ==>
              if DateOf(day) == Date(2026, 12, 30) then ExpectedOneMinuteRows(c, day) == Some(210) && ExpectedHourlyRows(c, day) == Some(4)
              else ExpectedOneMinuteRows(c, day) == Some(380) && ExpectedHourlyRows(c, day) == Some(7)
  {
    hide DateOf, Weekend;
  }

  /** Monday the 5th of January 2026 trades, the Saturday before it does not, nor does the Thursday of New Year. */
  lemma FirstMondayOf2026()
    ensures DateOf(20458) == Date(2026, 1, 5) && WeekdayOf(20458) == Monday && Trades(BUILT_IN, 20458)
    ensures DateOf(20456) == Date(2026, 1, 3) && WeekdayOf(20456) == Saturday && !Trades(BUILT_IN, 20456)
    ensures DateOf(20454) == Date(2026, 1, 1) && WeekdayOf(20454) == Thursday && !Trades(BUILT_IN, 20454)
  {
    hide DateOf, WeekdayOf, Trades, HOLIDAYS;
    NewYearOf2026();
    BuiltInDay(20458, Date(2026, 1, 5));
    BuiltInDay(20456, Date(2026, 1, 3));
    BuiltInDay(20454, Date(2026, 1, 1));
  }

  lemma NewYearOf2026()
    ensures Date(2026, 1, 1) in HOLIDAYS && Date(2026, 1, 5) !in HOLIDAYS
  {
  }

  lemma BuiltInDay(day: nat, d: Date)
    requires ValidDate(d) && DayNumber(d) == day
    ensures DateOf(day) == d && WeekdayOf(day) == Nth((day + 3) % 7)
    ensures Trades(BUILT_IN, day) <==> !OnWeekend(day) && d !in HOLIDAYS
  {
    hide DateOf, WeekdayOf, Trades, HOLIDAYS, ValidDate, DayNumber, OnWeekend;
    DateExactlyWhen(day, d);
    WeekdayCounts(day);
    TradesExactlyWhen(BUILT_IN, day);
  }

  lemma YearNumbers()
    ensures DaysBeforeYear(2026) == 20454 && DaysBeforeYear(2027) == 20819 && !Leap(2026) && !Leap(2027)
  {
  }

  lemma ListedNumber(d: Date)
    requires d in HOLIDAYS
    ensures ValidDate(d) && DayNumber(d) >= 0 && (DayNumber(d) + 3) % 7 <= 4
  {
    hide DaysBeforeYear, Leap;
    YearNumbers();
  }

  /** Every date in the built-in list is a weekday, so each one takes a trading day away. */
  lemma ListedDateIsWeekday(d: Date)
    requires d in HOLIDAYS
    ensures ValidDate(d) && DayNumber(d) >= 0 && DateOf(DayNumber(d)) == d && !OnWeekend(DayNumber(d))
  {
    hide DateOf, WeekdayOf, ValidDate, DayNumber, HOLIDAYS;
    ListedNumber(d);
    WeekdayCounts(DayNumber(d));
    DateExactlyWhen(DayNumber(d), d);
  }
}
