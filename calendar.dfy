/**
 * Calendar arithmetic behind the helper's month windows: the month that lies
 * `i` months before a reference month (`new Date(y, m - 1 - i, 1)`), and the
 * window `[new Date(y, m - 1, 1), new Date(y, m, 0, 23, 59, 59, 999)]` that
 * selects one month's transactions. Dates are local calendar fields; the
 * time zone and the epoch encoding of `Date` are not modelled.
 */
module Calendar {

  /** A calendar month: `month` counts from 1 as `getMonth() + 1` does. */
  datatype YearMonth = YearMonth(month: int, year: int)

  predicate ValidMonth(ym: YearMonth) {
    1 <= ym.month <= 12
  }

  /** Months since January of year 0: the order in which `Date` counts months. */
  function MonthIndex(ym: YearMonth): int {
    ym.year * 12 + ym.month - 1
  }

  /**
   * `new Date(year, monthIndex, 1)` normalises an out-of-range month index
   * into the year: the month of the absolute index `k`.
   */
  function MonthOfIndex(k: int): (ym: YearMonth)
    ensures ValidMonth(ym) && MonthIndex(ym) == k
  {
    YearMonth(k % 12 + 1, k / 12)
  }

  /** A valid month is determined by its index. */
  lemma MonthIndexInjective(a: YearMonth, b: YearMonth)
    requires ValidMonth(a) && ValidMonth(b) && MonthIndex(a) == MonthIndex(b)
    ensures a == b
  {
    IndexSplits(a);
    IndexSplits(b);
  }

  /** A valid month's index splits back into its year and month. */
  lemma IndexSplits(ym: YearMonth)
    requires ValidMonth(ym)
    ensures MonthIndex(ym) / 12 == ym.year && MonthIndex(ym) % 12 == ym.month - 1
  {
  }

  /** `new Date(y, m - 1 - i, 1)` read back as (`getMonth() + 1`, `getFullYear()`). */
  function MonthsBack(ref: YearMonth, i: int): (ym: YearMonth)
    ensures ValidMonth(ym) && MonthIndex(ym) == MonthIndex(ref) - i
  {
    MonthOfIndex(MonthIndex(ref) - i)
  }

  /** One month back from a valid month: January rolls over to December of the year before. */
  lemma PreviousMonth(ref: YearMonth)
    requires ValidMonth(ref)
    ensures MonthsBack(ref, 1) == if ref.month == 1 then YearMonth(12, ref.year - 1) else YearMonth(ref.month - 1, ref.year)
  {
    var expected := if ref.month == 1 then YearMonth(12, ref.year - 1) else YearMonth(ref.month - 1, ref.year);
    MonthIndexInjective(MonthsBack(ref, 1), expected);
  }

  /** Stepping back zero months from a valid month gives that month. */
  lemma MonthsBackZero(ref: YearMonth)
    requires ValidMonth(ref)
    ensures MonthsBack(ref, 0) == ref
  {
    MonthIndexInjective(MonthsBack(ref, 0), ref);
  }

  /** Stepping back `i` and then `j` more months is stepping back `i + j`. */
  lemma MonthsBackAdd(ref: YearMonth, i: int, j: int)
    ensures MonthsBack(MonthsBack(ref, i), j) == MonthsBack(ref, i + j)
  {
    MonthIndexInjective(MonthsBack(MonthsBack(ref, i), j), MonthsBack(ref, i + j));
  }

  // ---------------------------------------------------------------------
  // Dates and the month window

  /** Local calendar fields of a `Date`: `millis` is the time of day in milliseconds. */
  datatype DateTime = DateTime(year: int, month: int, day: int, millis: int)

  predicate IsLeapYear(y: int) {
    (y % 4 == 0 && y % 100 != 0) || y % 400 == 0
  }

  function DaysInMonth(y: int, m: int): (n: int)
    requires 1 <= m <= 12
    ensures 28 <= n <= 31
    ensures n == 30 <==> m == 4 || m == 6 || m == 9 || m == 11
    ensures n == 29 <==> m == 2 && IsLeapYear(y)
    ensures n == 28 <==> m == 2 && !IsLeapYear(y)
  {
    if m == 2 then (if IsLeapYear(y) then 29 else 28)
    else if m == 4 || m == 6 || m == 9 || m == 11 then 30
    else 31
  }

  /** The days of months `m` to 12 of year `y`. */
  function DaysFrom(y: int, m: int): nat
    requires 1 <= m <= 13
    decreases 13 - m
  {
    if m == 13 then 0 else DaysInMonth(y, m) + DaysFrom(y, m + 1)
  }

  /** The twelve months make up a year of 365 days, or 366 in a leap year. */
  lemma YearLength(y: int)
    ensures DaysFrom(y, 1) == if IsLeapYear(y) then 366 else 365
  {
    assert DaysFrom(y, 13) == 0;
    assert DaysFrom(y, 12) == 31;
    assert DaysFrom(y, 11) == 61;
    assert DaysFrom(y, 10) == 92;
    assert DaysFrom(y, 9) == 122;
    assert DaysFrom(y, 8) == 153;
    assert DaysFrom(y, 7) == 184;
    assert DaysFrom(y, 6) == 214;
    assert DaysFrom(y, 5) == 245;
    assert DaysFrom(y, 4) == 275;
    assert DaysFrom(y, 3) == 306;
  }

  /** Milliseconds in a day: the last instant of a day is `23:59:59.999`. */
  const LastMillisOfDay: int := 24 * 60 * 60 * 1000 - 1

  predicate ValidDate(d: DateTime) {
    1 <= d.month <= 12 && 1 <= d.day <= DaysInMonth(d.year, d.month) && 0 <= d.millis <= LastMillisOfDay
  }

  /** Chronological order of local calendar fields. */
  predicate NotAfter(a: DateTime, b: DateTime) {
    if a.year != b.year then a.year < b.year
    else if a.month != b.month then a.month < b.month
    else if a.day != b.day then a.day < b.day
    else a.millis <= b.millis
  }

  /** `new Date(year, month - 1, 1)`: midnight on the first day of the (normalised) month. */
  function MonthStart(ym: YearMonth): DateTime {
    var n := MonthOfIndex(MonthIndex(ym));
    DateTime(n.year, n.month, 1, 0)
  }

  /**
   * `new Date(year, month, 0, 23, 59, 59, 999)`: day 0 of the next month is
   * the last day of this one, at its last millisecond.
   */
  function MonthEnd(ym: YearMonth): DateTime {
    var n := MonthOfIndex(MonthIndex(ym));
    DateTime(n.year, n.month, DaysInMonth(n.year, n.month), LastMillisOfDay)
  }

  /** The query `date: { $gte: startOfMonth, $lte: endOfMonth }`. */
  predicate InMonthWindow(d: DateTime, ym: YearMonth) {
    NotAfter(MonthStart(ym), d) && NotAfter(d, MonthEnd(ym))
  }

  /** The window holds exactly the valid dates of that calendar month, whatever the month number. */
  lemma WindowIsCalendarMonth(d: DateTime, ym: YearMonth)
    requires ValidDate(d)
    ensures InMonthWindow(d, ym) <==> MonthIndex(YearMonth(d.month, d.year)) == MonthIndex(ym)
  {
    var n := MonthOfIndex(MonthIndex(ym));
    if InMonthWindow(d, ym) {
      assert d.year == n.year && d.month == n.month;
    }
    if MonthIndex(YearMonth(d.month, d.year)) == MonthIndex(ym) {
      MonthIndexInjective(YearMonth(d.month, d.year), n);
    }
  }
}
