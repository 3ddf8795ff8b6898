/** UTC timestamps in seconds since 1970-01-01 and the two bucket labels of the
    retention code: the ISO 8601 week (`%G-W%V`) and the month (`%Y-%m`). */
module Calendar {

  /** Days since 1970-01-01, a Thursday. */
  function Day(t: int): int { t / 86400 }

  function LeapDaysBefore(year: int): int
  {
    (year - 1) / 4 - (year - 1) / 100 + (year - 1) / 400
  }

  /** The day number of 1 January. */
  function YearStart(year: int): int
  {
    365 * (year - 1970) + LeapDaysBefore(year) - LeapDaysBefore(1970)
  }

  predicate IsLeap(year: int)
  {
    year % 4 == 0 && (year % 100 != 0 || year % 400 == 0)
  }

  lemma Fourths(y: int) ensures y / 4 - (y - 1) / 4 == if y % 4 == 0 then 1 else 0 { }

  lemma Hundredths(y: int) ensures y / 100 - (y - 1) / 100 == if y % 100 == 0 then 1 else 0 { }

  lemma FourHundredths(y: int) ensures y / 400 - (y - 1) / 400 == if y % 400 == 0 then 1 else 0 { }

  lemma Nested(y: int)
    ensures y % 100 == 0 ==> y % 4 == 0
    ensures y % 400 == 0 ==> y % 100 == 0
  {
    if y % 100 == 0 { assert y == 4 * (25 * (y / 100)); }
    if y % 400 == 0 { assert y == 100 * (4 * (y / 400)); }
  }

  lemma YearLength(year: int)
    ensures YearStart(year + 1) - YearStart(year) == if IsLeap(year) then 366 else 365
  {
    Fourths(year);
    Hundredths(year);
    FourHundredths(year);
    Nested(year);
    assert LeapDaysBefore(year + 1) == year / 4 - year / 100 + year / 400;
  }

  lemma {:induction false} YearsIncrease(a: int, b: int)
    requires a <= b
    ensures YearStart(b) >= YearStart(a) + 365 * (b - a)
    decreases b - a
  {
    if a < b {
      YearsIncrease(a, b - 1);
      YearLength(b - 1);
    }
  }

  /** How far a day is from a year, in days. */
  function Away(year: int, day: int): (r: int)
    ensures r >= 0
  {
    YearLength(year);
    if day < YearStart(year) then YearStart(year) - day
    else if day >= YearStart(year + 1) then day - YearStart(year)
    else 0
  }

  lemma Closer(year: int, day: int)
    ensures day < YearStart(year) ==> Away(year - 1, day) < Away(year, day)
    ensures day >= YearStart(year + 1) ==> Away(year + 1, day) < Away(year, day)
  {
    YearLength(year - 1);
    YearLength(year);
  }

  /** The year of a day, searched from a given year. */
  function YearFrom(year: int, day: int): (y: int)
    ensures YearStart(y) <= day < YearStart(y + 1)
    decreases Away(year, day)
  {
    Closer(year, day);
    if day < YearStart(year) then YearFrom(year - 1, day)
    else if day >= YearStart(year + 1) then YearFrom(year + 1, day)
    else year
  }

  function YearOf(day: int): (y: int)
    ensures YearStart(y) <= day < YearStart(y + 1)
  {
    YearFrom(1970, day)
  }

  lemma YearsOrdered(a: int, b: int)
    requires a <= b
    ensures YearOf(a) <= YearOf(b)
  {
    if YearOf(b) < YearOf(a) { YearsIncrease(YearOf(b) + 1, YearOf(a)); }
  }

  // ------------------------------------------------------------------- weeks

  /** Weeks run from Monday to Sunday; week 0 is the one of day 0. */
  function Week(t: int): int { (Day(t) + 3) / 7 }

  /** ISO year and week number: those of the week's Thursday. */
  function WeekLabel(t: int): (int, int)
  {
    var thursday := 7 * Week(t);
    (YearOf(thursday), 1 + (thursday - YearStart(YearOf(thursday))) / 7)
  }

  /** The label names the week: no two weeks share one. */
  lemma WeekLabelExact(a: int, b: int)
    ensures WeekLabel(a) == WeekLabel(b) <==> Week(a) == Week(b)
  {
  }

  /** The week of 4 January is week 1 of its year, and a week later is the next one,
      or week 1 again: the two facts by which ISO 8601 numbers the weeks. */
  lemma FourthOfJanuary(t: int, year: int)
    requires Day(t) == YearStart(year) + 3
    ensures WeekLabel(t) == (year, 1)
  {
    var thursday := 7 * Week(t);
    YearLength(year);
    SameYear(thursday, year);
  }

  lemma SameYear(day: int, year: int)
    requires YearStart(year) <= day < YearStart(year + 1)
    ensures YearOf(day) == year
  {
    if YearOf(day) < year { YearsIncrease(YearOf(day) + 1, year); }
    if year < YearOf(day) { YearsIncrease(year + 1, YearOf(day)); }
  }

  lemma LabelIn(t: int, year: int)
    requires YearStart(year) <= 7 * Week(t) < YearStart(year + 1)
    ensures WeekLabel(t) == (year, 1 + (7 * Week(t) - YearStart(year)) / 7)
  {
    SameYear(7 * Week(t), year);
  }

  lemma WeekLater(t: int)
    ensures Week(t + 604800) == Week(t) + 1
  {
    assert Day(t + 604800) == Day(t) + 7;
  }

  /** One week after a week whose Thursday is in the year. */
  lemma NextWeekIn(t: int, year: int)
    requires YearStart(year) <= 7 * Week(t) < YearStart(year + 1)
    ensures WeekLabel(t + 604800)
         == if 7 * Week(t) + 7 < YearStart(year + 1) then (year, 2 + (7 * Week(t) - YearStart(year)) / 7)
            else (year + 1, 1)
  {
    WeekLater(t);
    YearsIncrease(year + 1, year + 2);
    LabelIn(t + 604800, if 7 * Week(t) + 7 < YearStart(year + 1) then year else year + 1);
  }

  lemma NextWeek(t: int)
    ensures var (year, week) := WeekLabel(t);
      WeekLabel(t + 604800) == (year, week + 1) || WeekLabel(t + 604800) == (year + 1, 1)
  {
    var year := YearOf(7 * Week(t));
    NextWeekIn(t, year);
    LabelIn(t, year);
  }

  // ------------------------------------------------------------------ months

  /** The day of the year on which month `m` (1..13) starts. */
  function MonthStart(m: int, leap: bool): int
    requires 1 <= m <= 13
  {
    [0, 31, 59, 90, 120, 151, 181, 212, 243, 273, 304, 334, 365][m - 1] + (if leap && m > 2 then 1 else 0)
  }

  /** The month of a day of the year, searched from month `m`. */
  function MonthFrom(m: int, dayOfYear: int, leap: bool): (r: int)
    requires 1 <= m <= 12 && MonthStart(m, leap) <= dayOfYear < MonthStart(13, leap)
    ensures m <= r <= 12 && MonthStart(r, leap) <= dayOfYear < MonthStart(r + 1, leap)
    decreases 12 - m
  {
    if dayOfYear < MonthStart(m + 1, leap) then m else MonthFrom(m + 1, dayOfYear, leap)
  }

  function MonthLabel(t: int): (r: (int, int))
    ensures 1 <= r.1 <= 12
  {
    var year := YearOf(Day(t));
    YearLength(year);
    (year, MonthFrom(1, Day(t) - YearStart(year), IsLeap(year)))
  }

  /** The days of a month in the Gregorian calendar. */
  function DaysIn(month: int, leap: bool): int
  {
    if month == 2 then (if leap then 29 else 28)
    else if month in {4, 6, 9, 11} then 30 else 31
  }

  lemma MonthLength(month: int, leap: bool)
    requires 1 <= month <= 12
    ensures MonthStart(month + 1, leap) - MonthStart(month, leap) == DaysIn(month, leap)
  {
  }

  lemma InMonth(t: int)
    ensures var (year, month) := MonthLabel(t);
      MonthStart(month, IsLeap(year)) <= Day(t) - YearStart(year) < MonthStart(month + 1, IsLeap(year))
  {
    YearLength(MonthLabel(t).0);
  }

  /** The days with a label are as many as the month has, and the months of a year
      follow on one another from 1 January to its end. */
  lemma MonthLabelDays(t: int)
    ensures var (year, month) := MonthLabel(t);
      var first := YearStart(year) + MonthStart(month, IsLeap(year));
      && first <= Day(t) < first + DaysIn(month, IsLeap(year))
      && (month == 1 ==> first == YearStart(year))
      && first + DaysIn(month, IsLeap(year))
         == if month == 12 then YearStart(year + 1) else YearStart(year) + MonthStart(month + 1, IsLeap(year))
  {
    var (year, month) := MonthLabel(t);
    InMonth(t);
    MonthLength(month, IsLeap(year));
    if month == 12 { YearLength(year); }
  }

  /** Months counted without a break. */
  function Month(t: int): int
  {
    12 * MonthLabel(t).0 + MonthLabel(t).1
  }

  lemma TwelveMonths(a: (int, int), b: (int, int))
    requires 1 <= a.1 <= 12 && 1 <= b.1 <= 12
    ensures a == b <==> 12 * a.0 + a.1 == 12 * b.0 + b.1
  {
  }

  lemma MonthLabelExact(a: int, b: int)
    ensures MonthLabel(a) == MonthLabel(b) <==> Month(a) == Month(b)
  {
    TwelveMonths(MonthLabel(a), MonthLabel(b));
  }

  lemma MonthStartsIncrease(m: int, n: int, leap: bool)
    requires 1 <= m <= n <= 13
    ensures MonthStart(m, leap) <= MonthStart(n, leap)
    decreases n - m
  {
    if m < n { MonthStartsIncrease(m, n - 1, leap); }
  }

  lemma MonthsOrdered(a: int, b: int)
    requires a <= b
    ensures Month(a) <= Month(b)
  {
    var x, y := Day(a), Day(b);
    YearsOrdered(x, y);
    YearLength(YearOf(x));
    if YearOf(x) == YearOf(y) && MonthLabel(b).1 < MonthLabel(a).1 {
      MonthStartsIncrease(MonthLabel(b).1 + 1, MonthLabel(a).1, IsLeap(YearOf(x)));
    }
  }

  /** Both buckets only move forward with the clock. */
  lemma BucketsOrdered(a: int, b: int)
    requires a <= b
    ensures Week(a) <= Week(b) && Month(a) <= Month(b)
  {
    MonthsOrdered(a, b);
  }

}
