/**
  The proleptic Gregorian calendar at day granularity, as the application uses it through
  `date-fns`: month lengths with the leap-year rule, weekdays (0 = Sunday, as `Date.getDay`),
  the lexicographic order of dates, and month arithmetic that clamps the day of month the way
  `addMonths` / `subMonths` do.
*/
module Dates {

  /** A calendar date; `month` runs 1..12 (the source's 0-based month index is `month - 1`). */
  datatype Date = Date(year: int, month: int, day: int)

  predicate IsLeapYear(y: int) {
    y % 4 == 0 && (y % 100 != 0 || y % 400 == 0)
  }

  function DaysInMonth(y: int, m: int): int {
    if m == 2 then (if IsLeapYear(y) then 29 else 28)
    else if m == 4 || m == 6 || m == 9 || m == 11 then 30
    else 31
  }

  function DaysInYear(y: int): int {
    if IsLeapYear(y) then 366 else 365
  }

  ghost predicate ValidMonth(m: int) {
    1 <= m <= 12
  }

  ghost predicate ValidDate(d: Date) {
    ValidMonth(d.month) && 1 <= d.day <= DaysInMonth(d.year, d.month)
  }

  /** Days of year `y` that come before the first of month `m` (cumulative table). */
  function DaysBeforeMonth(y: int, m: int): int
    requires 1 <= m <= 13
  {
    [0, 31, 59, 90, 120, 151, 181, 212, 243, 273, 304, 334, 365][m - 1]
      + (if m > 2 && IsLeapYear(y) then 1 else 0)
  }

  /** Days from 0001-01-01 to the first of January of year `y` (floor division). */
  function DaysBeforeYear(y: int): int {
    365 * (y - 1) + (y - 1) / 4 - (y - 1) / 100 + (y - 1) / 400
  }

  /** Number of days since 0001-01-01 (which is day 0, a Monday). */
  function Ordinal(d: Date): int
    requires ValidMonth(d.month)
  {
    DaysBeforeYear(d.year) + DaysBeforeMonth(d.year, d.month) + d.day - 1
  }

  /** Day of the week of `d`, 0 = Sunday .. 6 = Saturday, as `Date.getDay` returns it. */
  function Weekday(d: Date): (w: int)
    requires ValidMonth(d.month)
    ensures 0 <= w < 7
  {
    (Ordinal(d) + 1) % 7
  }

  /** The day after `d`. */
  function NextDay(d: Date): Date {
    if d.day < DaysInMonth(d.year, d.month) then Date(d.year, d.month, d.day + 1)
    else if d.month < 12 then Date(d.year, d.month + 1, 1)
    else Date(d.year + 1, 1, 1)
  }

  /** The cumulative table agrees with the month lengths. */
  lemma {:induction false} DaysBeforeMonthStep(y: int, m: int)
    requires 1 <= m <= 12
    ensures DaysBeforeMonth(y, m + 1) == DaysBeforeMonth(y, m) + DaysInMonth(y, m)
    ensures DaysBeforeMonth(y, 1) == 0 && DaysBeforeMonth(y, 13) == DaysInYear(y)
  {
  }

  /** The closed form for whole years agrees with the leap-year rule. */
  lemma {:induction false} DaysBeforeYearStep(y: int)
    ensures DaysBeforeYear(y + 1) == DaysBeforeYear(y) + DaysInYear(y)
  {
    PredecessorQuotient4(y);
    PredecessorQuotient100(y);
    PredecessorQuotient400(y);
    DivisorChain(y);
  }

  lemma {:induction false} PredecessorQuotient4(y: int)
    ensures (y - 1) / 4 == if y % 4 == 0 then y / 4 - 1 else y / 4
  {
  }

  lemma {:induction false} PredecessorQuotient100(y: int)
    ensures (y - 1) / 100 == if y % 100 == 0 then y / 100 - 1 else y / 100
  {
  }

  lemma {:induction false} PredecessorQuotient400(y: int)
    ensures (y - 1) / 400 == if y % 400 == 0 then y / 400 - 1 else y / 400
  {
  }

  /** Month `m` of year `y` is month index `y * 12 + m - 1`, which splits back into `y` and `m - 1`. */
  lemma {:induction false} MonthIndexSplit(y: int, m: int)
    requires ValidMonth(m)
    ensures (y * 12 + (m - 1)) / 12 == y && (y * 12 + (m - 1)) % 12 == m - 1
  {
  }

  /** A multiple of 400 is one of 100, and a multiple of 100 one of 4. */
  lemma {:induction false} DivisorChain(y: int)
    ensures y % 400 == 0 ==> y % 100 == 0
    ensures y % 100 == 0 ==> y % 4 == 0
  {
  }

  /** Consecutive days have consecutive ordinals, across month and year ends. */
  lemma {:induction false} NextDayOrdinal(d: Date)
    requires ValidDate(d)
    ensures ValidDate(NextDay(d))
    ensures Ordinal(NextDay(d)) == Ordinal(d) + 1
  {
    if d.day == DaysInMonth(d.year, d.month) {
      DaysBeforeMonthStep(d.year, d.month);
      if d.month == 12 {
        DaysBeforeYearStep(d.year);
      }
    }
  }

  /** The weekday advances by one from each day to the next. */
  lemma {:induction false} WeekdayOfNextDay(d: Date)
    requires ValidDate(d)
    ensures ValidDate(NextDay(d))
    ensures Weekday(NextDay(d)) == (Weekday(d) + 1) % 7
  {
    NextDayOrdinal(d);
    ModSevenShift(Ordinal(d) + 1, 1);
  }

  lemma {:induction false} ModSevenShift(a: int, k: int)
    ensures (a % 7 + k) % 7 == (a + k) % 7
  {
    var q := a / 7;
    assert a == 7 * q + a % 7;
    assert (a + k) == 7 * q + (a % 7 + k);
  }

  /** Within one month the weekday of day `k` is `k - 1` days after the weekday of the first. */
  lemma {:induction false} WeekdayInMonth(y: int, m: int, k: int)
    requires ValidMonth(m) && 1 <= k
    ensures Weekday(Date(y, m, k)) == (Weekday(Date(y, m, 1)) + k - 1) % 7
  {
    var o := Ordinal(Date(y, m, 1)) + 1;
    assert Ordinal(Date(y, m, k)) + 1 == o + (k - 1);
    ModSevenShift(o, k - 1);
  }

  /** Days from 1970-01-01, the epoch from which ECMAScript counts its time values. */
  function EpochDay(d: Date): int
    requires ValidMonth(d.month)
  {
    Ordinal(d) - Ordinal(Date(1970, 1, 1))
  }

  /**
   * `Weekday` is ECMAScript's WeekDay: the epoch day 1970-01-01 was a Thursday (4), and
   * every day is its epoch-day number plus 4, mod 7, so 0 is Sunday as `getDay` counts.
   */
  lemma {:induction false} WeekdayFromEpoch(d: Date)
    requires ValidMonth(d.month)
    ensures Weekday(d) == (EpochDay(d) + 4) % 7
    ensures Weekday(Date(1970, 1, 1)) == 4
    ensures Weekday(Date(2024, 1, 1)) == 1
  {
    assert Ordinal(Date(1970, 1, 1)) == 719162;
    assert EpochDay(d) + 4 == (Ordinal(d) + 1) - 7 * 102737;
  }

  /** Lexicographic order on (year, month, day): the order of the ISO strings the store compares. */
  predicate DateLe(a: Date, b: Date) {
    a.year < b.year
    || (a.year == b.year && a.month < b.month)
    || (a.year == b.year && a.month == b.month && a.day <= b.day)
  }

  function FirstOfMonth(y: int, m: int): Date {
    Date(y, m, 1)
  }

  function LastOfMonth(y: int, m: int): Date {
    Date(y, m, DaysInMonth(y, m))
  }

  /** A valid date lies between the first and the last day of a month exactly when it is in it. */
  lemma {:induction false} MonthWindowExact(y: int, m: int, x: Date)
    requires ValidMonth(m) && ValidDate(x)
    ensures ValidDate(FirstOfMonth(y, m)) && ValidDate(LastOfMonth(y, m))
    ensures DateLe(FirstOfMonth(y, m), x) && DateLe(x, LastOfMonth(y, m))
            <==> x.year == y && x.month == m
  {
  }

  /** Months counted from year 0: `year * 12 + month - 1`. */
  function MonthIndex(d: Date): int {
    d.year * 12 + d.month - 1
  }

  function Min(a: int, b: int): int {
    if a <= b then a else b
  }

  /**
    `addMonths(d, n)` (and `subMonths(d, n)` as `n` negative): move `n` calendar months and keep
    the day of month, clamped to the length of the month reached.
  */
  function AddMonths(d: Date, n: int): (r: Date)
    requires 1 <= d.day
    ensures ValidDate(r)
    ensures MonthIndex(r) == MonthIndex(d) + n
    ensures d.day <= DaysInMonth(r.year, r.month) ==> r.day == d.day
    ensures d.day > DaysInMonth(r.year, r.month) ==> r == LastOfMonth(r.year, r.month)
  {
    var i := MonthIndex(d) + n;
    var y, m := i / 12, i % 12 + 1;
    Date(y, m, Min(d.day, DaysInMonth(y, m)))
  }

  /** The month index determines year and month. */
  lemma {:induction false} MonthIndexInjective(a: Date, b: Date)
    requires ValidMonth(a.month) && ValidMonth(b.month)
    requires MonthIndex(a) == MonthIndex(b)
    ensures a.year == b.year && a.month == b.month
  {
    var i := MonthIndex(a);
    assert a.year == i / 12 && a.month == i % 12 + 1;
    assert b.year == i / 12 && b.month == i % 12 + 1;
  }
}
