/**
 The proleptic Gregorian calendar in UTC, as section 21.4.1 of ECMA-262 defines it for
 `getUTCDate`, `getUTCMonth` and `getUTCDay`. A day is its number since 1 January 1970;
 a minute is its number since that day's midnight.
 */
module Calendar {

  const MINUTES_PER_DAY := 1440

  datatype Date = Date(year: int, month: int, day: int)

  predicate LeapYear(y: int) {
    y % 4 == 0 && (y % 100 != 0 || y % 400 == 0)
  }

  function DaysInYear(y: int): int {
    if LeapYear(y) then 366 else 365
  }

  // The number of the first day of year y.
  function DayFromYear(y: int): int {
    365 * (y - 1970) + (y - 1969) / 4 - (y - 1901) / 100 + (y - 1601) / 400
  }

  lemma {:induction false} FourthYears(y: int)
    ensures (y - 1968) / 4 - (y - 1969) / 4 == if y % 4 == 0 then 1 else 0
  {
  }

  lemma {:induction false} HundredthYears(y: int)
    ensures (y - 1900) / 100 - (y - 1901) / 100 == if y % 100 == 0 then 1 else 0
  {
  }

  lemma {:induction false} FourHundredthYears(y: int)
    ensures (y - 1600) / 400 - (y - 1601) / 400 == if y % 400 == 0 then 1 else 0
  {
  }

  lemma {:induction false} MultiplesNest(y: int)
    ensures y % 400 == 0 ==> y % 100 == 0
    ensures y % 100 == 0 ==> y % 4 == 0
  {
  }

  lemma {:induction false} YearLength(y: int)
    ensures DayFromYear(y + 1) == DayFromYear(y) + DaysInYear(y)
  {
    FourthYears(y);
    HundredthYears(y);
    FourHundredthYears(y);
    MultiplesNest(y);
  }

  // The year that day d falls in, searched from year y, which starts on day `start`.
  function YearSearch(d: int, y: int, start: int): (r: int)
    requires start == DayFromYear(y)
    ensures DayFromYear(r) <= d < DayFromYear(r + 1)
    decreases if d < start then start - d else if d >= start + DaysInYear(y) then d - start + 1 else 0
  {
    YearLength(y);
    YearLength(y - 1);
    if d < start then YearSearch(d, y - 1, start - DaysInYear(y - 1))
    else if d >= start + DaysInYear(y) then YearSearch(d, y + 1, start + DaysInYear(y))
    else y
  }

  lemma {:induction false} EpochYear()
    ensures DayFromYear(1970) == 0
  {
  }

  function YearFromDay(d: int): (y: int)
    ensures DayFromYear(y) <= d < DayFromYear(y + 1)
  {
    EpochYear();
    YearSearch(d, 1970, 0)
  }

  function MonthLength(m: int, leap: bool): int {
    if m == 2 then (if leap then 29 else 28)
    else if m == 4 || m == 6 || m == 9 || m == 11 then 30
    else 31
  }

  // Days of the year before month m; month 13 stands for the whole year.
  function DaysBeforeMonth(m: int, leap: bool): (n: int)
    requires 1 <= m <= 13
    ensures m <= 12 ==> n + MonthLength(m, leap) == DaysBeforeMonth(m + 1, leap)
    decreases 13 - m
  {
    [0, 31, 59, 90, 120, 151, 181, 212, 243, 273, 304, 334, 365][m - 1] + (if leap && m > 2 then 1 else 0)
  }

  predicate ValidDate(t: Date) {
    1 <= t.month <= 12 && 1 <= t.day <= MonthLength(t.month, LeapYear(t.year))
  }

  function DayNumber(t: Date): int
    requires 1 <= t.month <= 12
  {
    DayFromYear(t.year) + DaysBeforeMonth(t.month, LeapYear(t.year)) + t.day - 1
  }

  // The month that day-of-year n falls in, searched upwards from m.
  function MonthSearch(n: int, m: int, leap: bool): (r: int)
    requires 1 <= m <= 12
    requires DaysBeforeMonth(m, leap) <= n < DaysBeforeMonth(13, leap)
    ensures m <= r <= 12
    ensures DaysBeforeMonth(r, leap) <= n < DaysBeforeMonth(r + 1, leap)
    decreases 12 - m
  {
    if n < DaysBeforeMonth(m + 1, leap) then m else MonthSearch(n, m + 1, leap)
  }

  function DateFromDay(d: int): (t: Date)
    ensures ValidDate(t)
    ensures DayNumber(t) == d
  {
    var y := YearFromDay(d);
    YearLength(y);
    var n := d - DayFromYear(y);
    var m := MonthSearch(n, 1, LeapYear(y));
    Date(y, m, n - DaysBeforeMonth(m, LeapYear(y)) + 1)
  }

  function WeekDay(d: int): int {
    (d + 4) % 7
  }

  lemma {:induction false} DayFromYearMonotone(y: int, z: int)
    requires y <= z
    ensures DayFromYear(y) + 365 * (z - y) <= DayFromYear(z)
    decreases z - y
  {
    if y < z {
      DayFromYearMonotone(y, z - 1);
      YearLength(z - 1);
    }
  }

  lemma {:induction false} DaysBeforeMonthMonotone(m: int, n: int, leap: bool)
    requires 1 <= m <= n <= 13
    ensures DaysBeforeMonth(m, leap) + 28 * (n - m) <= DaysBeforeMonth(n, leap)
    decreases n - m
  {
    if m < n {
      DaysBeforeMonthMonotone(m, n - 1, leap);
    }
  }

  // Dates in calendar order, compared field by field.
  predicate Before(t: Date, u: Date) {
    t.year < u.year || (t.year == u.year && (t.month < u.month || (t.month == u.month && t.day < u.day)))
  }

  lemma {:induction false} LaterYearsHaveLaterNumbers(t: Date, u: Date)
    requires ValidDate(t) && ValidDate(u) && t.year < u.year
    ensures DayNumber(t) < DayNumber(u)
  {
    DayInItsYear(t);
    DayInItsYear(u);
    DayFromYearMonotone(t.year + 1, u.year);
  }

  lemma {:induction false} LaterDatesHaveLaterNumbers(t: Date, u: Date)
    requires ValidDate(t) && ValidDate(u) && Before(t, u)
    ensures DayNumber(t) < DayNumber(u)
  {
    if t.year < u.year {
      LaterYearsHaveLaterNumbers(t, u);
    } else if t.month < u.month {
      DaysBeforeMonthMonotone(t.month + 1, u.month, LeapYear(t.year));
    }
  }

  /** A valid date has a day number, and that number leads back to it alone. */
  lemma {:induction false} DateRoundTrip(t: Date)
    requires ValidDate(t)
    ensures DateFromDay(DayNumber(t)) == t
  {
    var u := DateFromDay(DayNumber(t));
    if Before(t, u) {
      LaterDatesHaveLaterNumbers(t, u);
    } else if Before(u, t) {
      LaterDatesHaveLaterNumbers(u, t);
    }
  }

  lemma {:induction false} DayInItsYear(t: Date)
    requires ValidDate(t)
    ensures DayFromYear(t.year) <= DayNumber(t) < DayFromYear(t.year + 1)
  {
    var leap := LeapYear(t.year);
    YearLength(t.year);
    DaysBeforeMonthMonotone(1, t.month, leap);
    DaysBeforeMonthMonotone(t.month + 1, 13, leap);
  }
}
