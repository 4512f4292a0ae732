/**
 The search for the next cron occurrence: a walk over whole UTC minutes, at most 366 days long.
 Minutes are numbered from the start of 1970.
 */
module CronSearch {
  import opened Wrappers
  import opened Calendar
  import opened CronFields
  import opened Enumeration

  const MAX_ITERATIONS: nat := 366 * 24 * 60
  const MS_PER_MINUTE := 60_000

  // The whole minute a time in milliseconds falls in.
  function FloorMinute(ms: int): int {
    ms / MS_PER_MINUTE
  }

  lemma {:induction false} FloorOfMinute(minute: int)
    ensures FloorMinute(minute * MS_PER_MINUTE) == minute
  {
  }

  predicate DayMatches(e: CronExpr, day: int) {
    var date := DateFromDay(day);
    var domMatch := date.day in e.dayOfMonth.values;
    var dowMatch := WeekDay(day) in e.dayOfWeek.values;
    && date.month in e.month.values
    && if !e.dayOfMonth.isWildcard && !e.dayOfWeek.isWildcard then domMatch || dowMatch
       else (e.dayOfMonth.isWildcard || domMatch) && (e.dayOfWeek.isWildcard || dowMatch)
  }

  predicate MatchesExpression(e: CronExpr, minute: int) {
    && minute % 60 in e.minute.values
    && minute / 60 % 24 in e.hour.values
    && DayMatches(e, minute / MINUTES_PER_DAY)
  }

  // The first of the minutes from c up to before `end` with property p.
  function FirstWhere(p: int -> bool, c: int, end: int): Option<int>
    decreases end - c
  {
    if c >= end then None
    else if p(c) then Some(c)
    else FirstWhere(p, c + 1, end)
  }

  function Matcher(e: CronExpr): int -> bool {
    m => MatchesExpression(e, m)
  }

  ghost function Matching(e: CronExpr): iset<int> {
    iset m | MatchesExpression(e, m)
  }

  ghost predicate NoneWithinAYear(e: CronExpr, b: int) {
    forall k :: b < k <= b + 366 * MINUTES_PER_DAY ==> !MatchesExpression(e, k)
  }

  function NextOccurrence(e: CronExpr, base: int): Option<int> {
    FirstWhere(Matcher(e), base + 1, base + 1 + MAX_ITERATIONS)
  }

  lemma {:induction false} FirstWhereIsLeast(p: int -> bool, c: int, end: int)
    ensures match FirstWhere(p, c, end)
            case Some(m) => c <= m < end && p(m) && forall k :: c <= k < m ==> !p(k)
            case None => forall k :: c <= k < end ==> !p(k)
    decreases end - c
  {
    if c < end && !p(c) {
      FirstWhereIsLeast(p, c + 1, end);
    }
  }

  /** The search finds the least matching minute after its base, or there is none for 366 days. */
  lemma {:induction false} NextIsLeast(e: CronExpr, base: int)
    ensures match NextOccurrence(e, base)
            case Some(m) => IsNext(Matching(e), base, m) && m <= base + 366 * MINUTES_PER_DAY
            case None => NoneWithinAYear(e, base)
  {
    var p := Matcher(e);
    FirstWhereIsLeast(p, base + 1, base + 1 + MAX_ITERATIONS);
    assert forall k :: MatchesExpression(e, k) ==> p(k);
  }

  /** The minute-by-minute loop, on the minute its starting time is floored to. */
  method ComputeNextOccurrence(e: CronExpr, fromMs: int) returns (r: Option<int>)
    ensures r == NextOccurrence(e, FloorMinute(fromMs))
  {
    var start := FloorMinute(fromMs);
    var candidate := start + 1;
    var i := 0;
    while i < MAX_ITERATIONS
      invariant 0 <= i <= MAX_ITERATIONS
      invariant candidate == start + 1 + i
      invariant NextOccurrence(e, start) == FirstWhere(Matcher(e), candidate, start + 1 + MAX_ITERATIONS)
    {
      if MatchesExpression(e, candidate) {
        return Some(candidate);
      }
      candidate := candidate + 1;
      i := i + 1;
    }
    r := None;
  }

  // Some listed day exists in every common year, or the day of the month does not restrict.
  ghost predicate RunsEveryYear(e: CronExpr) {
    || !e.dayOfWeek.isWildcard
    || e.dayOfMonth.isWildcard
    || exists m, d :: m in e.month.values && d in e.dayOfMonth.values && d <= MonthLength(m, false)
  }

  // Minute `mi` of hour `h` on day `day`.
  function MinuteOf(day: int, h: int, mi: int): int {
    day * MINUTES_PER_DAY + h * 60 + mi
  }

  lemma {:induction false} MinuteOfParts(day: int, h: int, mi: int)
    requires 0 <= h < 24 && 0 <= mi < 60
    ensures var m := MinuteOf(day, h, mi);
            m % 60 == mi && m / 60 % 24 == h && m / MINUTES_PER_DAY == day
  {
    var m := MinuteOf(day, h, mi);
    assert m / 60 == day * 24 + h;
  }

  lemma {:induction false} MinuteIsItsParts(m: int)
    ensures m == MinuteOf(m / MINUTES_PER_DAY, m / 60 % 24, m % 60)
  {
    assert m / 60 / 24 == m / MINUTES_PER_DAY;
  }

  // Seven days in a row of month m, somewhere in the 366 days from day d on.
  lemma {:induction false} WeekInMonth(d: int, m: int) returns (a: int)
    requires 1 <= m <= 12
    ensures d <= a && a + 6 <= d + 365
    ensures forall i :: a <= i <= a + 6 ==> DateFromDay(i).month == m
  {
    var y := YearFromDay(d);
    YearLength(y);
    var first := DayNumber(Date(y, m, 1));
    DaysBeforeMonthMonotone(1, m, LeapYear(y));
    DaysBeforeMonthMonotone(m, 13, LeapYear(y));
    var len := MonthLength(m, LeapYear(y));
    if d <= first + len - 7 {
      a := if d <= first then first else d;
      DaysOfMonth(y, m, a);
    } else {
      a := FirstWeekNextYear(d, y, m);
    }
  }

  // Where fewer than seven days of month m are left in the year, the first seven of the next year's.
  lemma {:induction false} FirstWeekNextYear(d: int, y: int, m: int) returns (a: int)
    requires 1 <= m <= 12 && d < DayFromYear(y + 1)
    requires d > DayNumber(Date(y, m, 1)) + MonthLength(m, LeapYear(y)) - 7
    ensures d <= a && a + 6 <= d + 365
    ensures forall i :: a <= i <= a + 6 ==> DateFromDay(i).month == m
  {
    a := DayNumber(Date(y + 1, m, 1));
    DaysBeforeMonthMonotone(1, m, LeapYear(y + 1));
    NextYearSameDate(y, m, 1);
    DaysOfMonth(y + 1, m, a);
  }

  lemma {:induction false} DaysOfMonth(y: int, m: int, a: int)
    requires 1 <= m <= 12
    requires DayNumber(Date(y, m, 1)) <= a <= DayNumber(Date(y, m, 1)) + MonthLength(m, LeapYear(y)) - 7
    ensures forall i :: a <= i <= a + 6 ==> DateFromDay(i).month == m
  {
    forall i | a <= i <= a + 6
      ensures DateFromDay(i).month == m
    {
      DateRoundTrip(Date(y, m, i - DayNumber(Date(y, m, 1)) + 1));
    }
  }

  lemma {:induction false} NoTwoLeapYearsInARow(y: int)
    ensures !(LeapYear(y) && LeapYear(y + 1))
  {
  }

  lemma {:induction false} LeapDayShiftsByOne(m: int)
    requires 1 <= m <= 12
    ensures DaysBeforeMonth(m, false) <= DaysBeforeMonth(m, true) <= DaysBeforeMonth(m, false) + 1
  {
  }

  lemma {:induction false} NextYearSameDate(y: int, m: int, day: int)
    requires 1 <= m <= 12
    ensures DayNumber(Date(y + 1, m, day)) <= DayNumber(Date(y, m, day)) + 366
  {
    YearLength(y);
    NoTwoLeapYearsInARow(y);
    LeapDayShiftsByOne(m);
  }

  // The date of month m and day `day` in the 366 days from day d on, where every year has that date.
  lemma {:induction false} DateInAYear(d: int, m: int, day: int) returns (a: int)
    requires 1 <= m <= 12 && 1 <= day <= MonthLength(m, false)
    ensures d <= a <= d + 365
    ensures DateFromDay(a).month == m && DateFromDay(a).day == day
  {
    var y := YearFromDay(d);
    var t := Date(y, m, day);
    DayInItsYear(t);
    YearLength(y);
    if d <= DayNumber(t) {
      a := DayNumber(t);
      DateRoundTrip(t);
    } else {
      a := DayNumber(Date(y + 1, m, day));
      NextYearSameDate(y, m, day);
      DayInItsYear(Date(y + 1, m, day));
      DateRoundTrip(Date(y + 1, m, day));
    }
  }

  lemma {:induction false} WeekdayInWeek(a: int, w: int) returns (d: int)
    requires 0 <= w <= 6
    ensures a <= d <= a + 6 && WeekDay(d) == w
  {
    d := a + (w - WeekDay(a)) % 7;
  }

  lemma {:induction false} MatchingDay(e: CronExpr, d: int) returns (a: int)
    requires ValidExpr(e) && RunsEveryYear(e)
    ensures d <= a <= d + 365 && DayMatches(e, a)
  {
    var month :| month in e.month.values;
    if e.dayOfWeek.isWildcard && !e.dayOfMonth.isWildcard {
      var m, day :| m in e.month.values && day in e.dayOfMonth.values && day <= MonthLength(m, false);
      a := DateInAYear(d, m, day);
    } else {
      a := WeekInMonth(d, month);
      var w :| w in e.dayOfWeek.values;
      a := WeekdayInWeek(a, w);
    }
  }

  lemma {:induction false} MatchWithinAYear(e: CronExpr, b: int)
    requires ValidExpr(e) && RunsEveryYear(e)
    ensures !NoneWithinAYear(e, b)
  {
    var h :| h in e.hour.values;
    var mi :| mi in e.minute.values;
    var first := (b - h * 60 - mi) / MINUTES_PER_DAY + 1;
    var day := MatchingDay(e, first);
    MinuteOfParts(day, h, mi);
    var k := MinuteOf(day, h, mi);
    assert MatchesExpression(e, k);
    assert b < k <= b + MAX_ITERATIONS;
  }

  // 29 February of year y, at hour h and minute mi.
  function LeapSlot(y: int, h: int, mi: int): int {
    MinuteOf(DayNumber(Date(y, 2, 29)), h, mi)
  }

  ghost predicate LeapSlotWithinAYear(e: CronExpr, b: int) {
    && 2 in e.month.values && 29 in e.dayOfMonth.values
    && exists y, h, mi :: LeapYear(y) && h in e.hour.values && mi in e.minute.values
                          && b < LeapSlot(y, h, mi) <= b + MAX_ITERATIONS
  }

  lemma {:induction false} LeapSlotMatches(e: CronExpr, y: int, h: int, mi: int)
    requires ValidExpr(e) && e.dayOfWeek.isWildcard
    requires 2 in e.month.values && 29 in e.dayOfMonth.values && LeapYear(y)
    requires h in e.hour.values && mi in e.minute.values
    ensures MatchesExpression(e, LeapSlot(y, h, mi))
  {
    DateRoundTrip(Date(y, 2, 29));
    MinuteOfParts(DayNumber(Date(y, 2, 29)), h, mi);
  }

  // An expression that does not run every year matches on 29 February only.
  lemma {:induction false} OnlyLeapDaysMatch(e: CronExpr, k: int)
    requires ValidExpr(e) && !RunsEveryYear(e) && MatchesExpression(e, k)
    ensures 2 in e.month.values && 29 in e.dayOfMonth.values
    ensures var y := DateFromDay(k / MINUTES_PER_DAY).year;
            LeapYear(y) && k == LeapSlot(y, k / 60 % 24, k % 60)
  {
    MinuteIsItsParts(k);
    var date := DateFromDay(k / MINUTES_PER_DAY);
    assert date.month in e.month.values && date.day in e.dayOfMonth.values;
    assert date.day > MonthLength(date.month, false);
    assert date == Date(date.year, 2, 29);
  }

  /**
   From a given base the search fails exactly when the expression lists no date of a common year
   (day-of-week open, day-of-month not) and no listed 29 February falls in the next 366 days.
   */
  lemma {:induction false} SearchFailsExactly(e: CronExpr, b: int)
    requires ValidExpr(e)
    ensures NextOccurrence(e, b) == None <==> !RunsEveryYear(e) && !LeapSlotWithinAYear(e, b)
  {
    var r := NextOccurrence(e, b);
    NextIsLeast(e, b);
    if RunsEveryYear(e) {
      MatchWithinAYear(e, b);
    } else if LeapSlotWithinAYear(e, b) {
      var y, h, mi :| LeapYear(y) && h in e.hour.values && mi in e.minute.values
                      && b < LeapSlot(y, h, mi) <= b + MAX_ITERATIONS;
      LeapSlotMatches(e, y, h, mi);
    } else if r.Some? {
      OnlyLeapDaysMatch(e, r.value);
    }
  }

  // From the start of 2001 there are 366 days without a 29 February.
  lemma {:induction false} NoLeapDayFrom2001(y: int, h: int, mi: int)
    requires LeapYear(y) && 0 <= h < 24 && 0 <= mi < 60
    ensures var b := DayFromYear(2001) * MINUTES_PER_DAY - 1;
            !(b < LeapSlot(y, h, mi) <= b + MAX_ITERATIONS)
  {
    DayInItsYear(Date(y, 2, 29));
    if y <= 2000 {
      DayFromYearMonotone(y + 1, 2001);
    } else {
      DayFromYearMonotone(2004, y);
    }
  }

  /** Every start finds a minute exactly for the expressions that run every year. */
  lemma {:induction false} AlwaysFoundExactly(e: CronExpr)
    requires ValidExpr(e)
    ensures (forall b :: NextOccurrence(e, b) != None) <==> RunsEveryYear(e)
  {
    if RunsEveryYear(e) {
      forall b
        ensures NextOccurrence(e, b) != None
      {
        SearchFailsExactly(e, b);
      }
    } else {
      var b := DayFromYear(2001) * MINUTES_PER_DAY - 1;
      forall y, h, mi | LeapYear(y) && h in e.hour.values && mi in e.minute.values
        ensures !(b < LeapSlot(y, h, mi) <= b + MAX_ITERATIONS)
      {
        NoLeapDayFrom2001(y, h, mi);
      }
      SearchFailsExactly(e, b);
    }
  }

  // ---------------------------------------------------------------- what a match means

  /** Minutes are those of 60 seconds from the start of 1970. */
  lemma {:induction false} FloorIsMinuteStart(ms: int)
    ensures FloorMinute(ms) * 60 * 1000 <= ms < (FloorMinute(ms) + 1) * 60 * 1000
    ensures MS_PER_MINUTE == 60 * 1000
  {
  }

  // In milliseconds: the first matching minute to start after a time.
  ghost predicate StartsNext(e: CronExpr, ms: int, m: int) {
    && ms < m * 60 * 1000 && MatchesExpression(e, m)
    && forall k :: ms < k * 60 * 1000 && k < m ==> !MatchesExpression(e, k)
  }

  lemma {:induction false} NextStartsNext(e: CronExpr, ms: int)
    ensures var next := NextOccurrence(e, FloorMinute(ms)); next.Some? ==> StartsNext(e, ms, next.value)
  {
    var b := FloorMinute(ms);
    FloorIsMinuteStart(ms);
    NextIsLeast(e, b);
    if NextOccurrence(e, b).Some? {
      var m := NextOccurrence(e, b).value;
      assert IsNext(Matching(e), b, m);
      forall k | ms < k * 60 * 1000 && k < m ensures !MatchesExpression(e, k) {
        LaterMinute(b, ms, k);
        assert k !in Matching(e);
      }
      LaterMinute(b, ms, m);
    }
  }

  lemma {:induction false} LaterMinute(b: int, ms: int, k: int)
    requires b * 60 * 1000 <= ms < (b + 1) * 60 * 1000
    ensures b < k <==> ms < k * 60 * 1000
  {
  }

  /** The first day of 1970 is a Thursday, and each day is followed by one of the next weekday, Saturday by Sunday. */
  lemma {:induction false} WeekdaysFollow(d: int)
    ensures WeekDay(DayNumber(Date(1970, 1, 1))) == DAY_NAMES["THU"]
    ensures DAY_NAMES["SUN"] <= WeekDay(d) <= DAY_NAMES["SAT"]
    ensures WeekDay(d + 1) == if WeekDay(d) == DAY_NAMES["SAT"] then DAY_NAMES["SUN"] else WeekDay(d) + 1
  {
    EpochYear();
    NextRemainder(d + 4);
  }

  lemma {:induction false} NextRemainder(a: int)
    ensures 0 <= a % 7 <= 6 && (a + 1) % 7 == if a % 7 == 6 then 0 else a % 7 + 1
  {
  }

  lemma {:induction false} EveryMinuteHasADate(k: int) returns (t: Date, h: int, mi: int)
    ensures ValidDate(t) && 0 <= h < 24 && 0 <= mi < 60 && k == MinuteOf(DayNumber(t), h, mi)
    ensures forall u, i, j :: ValidDate(u) && 0 <= i < 24 && 0 <= j < 60 && k == MinuteOf(DayNumber(u), i, j) ==>
              u == t && i == h && j == mi
  {
    t, h, mi := DateFromDay(k / MINUTES_PER_DAY), k / 60 % 24, k % 60;
    MinuteIsItsParts(k);
    forall u, i, j | ValidDate(u) && 0 <= i < 24 && 0 <= j < 60 && k == MinuteOf(DayNumber(u), i, j)
      ensures u == t && i == h && j == mi
    {
      MinuteOfParts(DayNumber(u), i, j);
      DateRoundTrip(u);
    }
  }

  /**
   A minute matches exactly when its minute, hour and month are listed and so is its day: by its day of
   the month or its weekday, by either where both restrict, and by the one that restricts where one does.
   */
  lemma {:induction false} MatchesExactly(e: CronExpr, t: Date, h: int, mi: int)
    requires ValidDate(t) && 0 <= h < 24 && 0 <= mi < 60
    ensures MatchesExpression(e, MinuteOf(DayNumber(t), h, mi)) <==>
            && mi in e.minute.values && h in e.hour.values && t.month in e.month.values
            && match (e.dayOfMonth.isWildcard, e.dayOfWeek.isWildcard)
               case (true, true) => true
               case (false, true) => t.day in e.dayOfMonth.values
               case (true, false) => WeekDay(DayNumber(t)) in e.dayOfWeek.values
               case (false, false) =>
                 t.day in e.dayOfMonth.values || WeekDay(DayNumber(t)) in e.dayOfWeek.values
  {
    MinuteOfParts(DayNumber(t), h, mi);
    DateRoundTrip(t);
  }

  function Open(name: FieldName): Field {
    Field(FullSet(DefOf(name)), true)
  }

  function Earlier(a: Option<int>, b: Option<int>): Option<int> {
    if a == None then b else if b == None then a else Some(if a.value < b.value then a.value else b.value)
  }

  lemma {:induction false} EitherMatches(e: CronExpr, k: int)
    requires !e.dayOfMonth.isWildcard && !e.dayOfWeek.isWildcard
    ensures MatchesExpression(e, k) <==>
            || MatchesExpression(e.(dayOfWeek := Open(DayOfWeek)), k)
            || MatchesExpression(e.(dayOfMonth := Open(DayOfMonth)), k)
  {
    var t, h, mi := EveryMinuteHasADate(k);
    MatchesExactly(e, t, h, mi);
    MatchesExactly(e.(dayOfWeek := Open(DayOfWeek)), t, h, mi);
    MatchesExactly(e.(dayOfMonth := Open(DayOfMonth)), t, h, mi);
  }

  lemma {:induction false} FirstOfEither(p: int -> bool, q: int -> bool, r: int -> bool, c: int, end: int)
    requires forall k :: p(k) <==> q(k) || r(k)
    ensures FirstWhere(p, c, end) == Earlier(FirstWhere(q, c, end), FirstWhere(r, c, end))
    decreases end - c
  {
    FirstWhereIsLeast(q, c, end);
    FirstWhereIsLeast(r, c, end);
    if c < end && !p(c) {
      FirstOfEither(p, q, r, c + 1, end);
    }
  }

  /**
   Where both day fields restrict, the matching minutes are those of the expression with the weekday opened
   and those with the day of the month opened, together, and the search finds the earlier of their two.
   */
  lemma {:induction false} EitherDayField(e: CronExpr, base: int)
    requires !e.dayOfMonth.isWildcard && !e.dayOfWeek.isWildcard
    ensures var byDate, byWeekday := e.(dayOfWeek := Open(DayOfWeek)), e.(dayOfMonth := Open(DayOfMonth));
            && Matching(e) == Matching(byDate) + Matching(byWeekday)
            && NextOccurrence(e, base) == Earlier(NextOccurrence(byDate, base), NextOccurrence(byWeekday, base))
  {
    var byDate, byWeekday := e.(dayOfWeek := Open(DayOfWeek)), e.(dayOfMonth := Open(DayOfMonth));
    forall k ensures MatchesExpression(e, k) <==> MatchesExpression(byDate, k) || MatchesExpression(byWeekday, k) {
      EitherMatches(e, k);
    }
    var end := base + 1 + MAX_ITERATIONS;
    FirstOfEither(Matcher(e), Matcher(byDate), Matcher(byWeekday), base + 1, end);
  }
}
