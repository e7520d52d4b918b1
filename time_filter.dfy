/**
 * `parseTimeFilter`: turns the time phrase the intent parser extracted
 * ("tháng này", "last month", "tháng 3", ...) into a month and year, and the
 * month selection of `getQuickStatsWithFilter` / `getQuickStats` that falls
 * back to the current month. The clock is the parameter `now`.
 */
module TimeFilter {
  import opened Wrappers
  import opened Text
  import opened Calendar

  /** `tháng\s*(\d+)` tried at index `i`: the value of the captured digits (`parseInt`). */
  function MonthNumberAt(s: string, i: nat): (r: Option<nat>)
    requires i <= |s|
    ensures r.Some? ==> HasAt(s, i, "tháng")
  {
    if !HasAt(s, i, "tháng") then None
    else
      var j := SpacesEnd(s, i + 5);
      if j < |s| && IsDigit(s[j]) then Some(DigitsValue(s[j..DigitsEnd(s, j)])) else None
  }

  /** `s.match(/tháng\s*(\d+)/)`: the position of the leftmost match at `p` or later. */
  function MonthNumberSearch(s: string, p: nat): (r: Option<nat>)
    requires p <= |s|
    ensures r.Some? ==> p <= r.value <= |s| && MonthNumberAt(s, r.value).Some?
    decreases |s| - p
  {
    if MonthNumberAt(s, p).Some? then Some(p)
    else if p == |s| then None
    else MonthNumberSearch(s, p + 1)
  }

  /** The number the leftmost `tháng N` phrase carries, if there is one. */
  function MonthNumber(s: string): Option<nat> {
    match MonthNumberSearch(s, 0)
    case None => None
    case Some(i) => MonthNumberAt(s, i)
  }

  predicate MentionsThisMonth(lower: string) {
    Contains(lower, "tháng này") || Contains(lower, "this month")
  }

  predicate MentionsLastMonth(lower: string) {
    Contains(lower, "tháng trước") || Contains(lower, "last month")
  }

  /** A falsy filter: absent, or the empty string. */
  predicate Falsy(filter: Option<string>) {
    filter.None? || filter.value == []
  }

  /**
   * `parseTimeFilter`: "this month" first, then "last month" (January rolls
   * back to December of the year before), then the leftmost "tháng N", which
   * names a month of the current year only when 1 ≤ N ≤ 12.
   */
  function ParseTimeFilter(filter: Option<string>, now: YearMonth): (r: Option<YearMonth>)
    requires ValidMonth(now)
    ensures r.Some? ==> ValidMonth(r.value)
    ensures r.Some? ==> r.value == now || r.value == MonthsBack(now, 1) || r.value.year == now.year
  {
    if Falsy(filter) then None
    else
      var lower := LowerStr(filter.value);
      if MentionsThisMonth(lower) then Some(now)
      else if MentionsLastMonth(lower) then
        PreviousMonth(now);
        Some(if now.month == 1 then YearMonth(12, now.year - 1) else YearMonth(now.month - 1, now.year))
      else
        match MonthNumber(lower)
        case Some(n) => if 1 <= n <= 12 then Some(YearMonth(n, now.year)) else None
        case None => None
  }

  /**
   * `getQuickStats`'s `targetMonth || now.getMonth() + 1` and
   * `targetYear || now.getFullYear()`: an absent or zero target falls back
   * to the clock, field by field.
   */
  function SelectMonth(targetMonth: Option<int>, targetYear: Option<int>, now: YearMonth): (ym: YearMonth)
    ensures ym.month == (if targetMonth.Some? && targetMonth.value != 0 then targetMonth.value else now.month)
    ensures ym.year == (if targetYear.Some? && targetYear.value != 0 then targetYear.value else now.year)
  {
    var month := if targetMonth.Some? && targetMonth.value != 0 then targetMonth.value else now.month;
    var year := if targetYear.Some? && targetYear.value != 0 then targetYear.value else now.year;
    YearMonth(month, year)
  }

  /**
   * `getQuickStatsWithFilter`: the month `getQuickStats` reports on. A phrase
   * that resolves replaces the current month; otherwise the current month stays.
   */
  function StatsMonth(filter: Option<string>, now: YearMonth): YearMonth
    requires ValidMonth(now)
  {
    match ParseTimeFilter(filter, now)
    case Some(ym) => SelectMonth(Some(ym.month), Some(ym.year), now)
    case None => SelectMonth(Some(now.month), Some(now.year), now)
  }

  // ---------------------------------------------------------------------
  // Properties

  /** The month reported on is always a real month: the parsed one, or the current one. */
  lemma StatsMonthIsParsedOrCurrent(filter: Option<string>, now: YearMonth)
    requires ValidMonth(now)
    ensures ValidMonth(StatsMonth(filter, now))
    ensures var r := ParseTimeFilter(filter, now);
      StatsMonth(filter, now) == if r.Some? && r.value.year != 0 then r.value
                                 else if r.Some? then YearMonth(r.value.month, now.year)
                                 else now
  {
  }

  /** "tháng này" / "this month" wins over every other phrase. */
  lemma ThisMonthFirst(filter: string, now: YearMonth)
    requires ValidMonth(now) && MentionsThisMonth(LowerStr(filter))
    ensures ParseTimeFilter(Some(filter), now) == Some(now)
  {
  }

  /** "tháng trước" / "last month" is the month before, with January rolling back into the previous year. */
  lemma LastMonthSecond(filter: string, now: YearMonth)
    requires ValidMonth(now)
    requires !MentionsThisMonth(LowerStr(filter)) && MentionsLastMonth(LowerStr(filter))
    ensures ParseTimeFilter(Some(filter), now) == Some(MonthsBack(now, 1))
  {
    PreviousMonth(now);
  }

  /**
   * Without those phrases, the leftmost "tháng N" decides: month N of the
   * current year when 1 ≤ N ≤ 12 and no month otherwise, even when a later
   * phrase names a valid month.
   */
  lemma MonthNumberThird(filter: string, now: YearMonth, i: nat)
    requires ValidMonth(now) && filter != []
    requires var lower := LowerStr(filter);
      && !MentionsThisMonth(lower) && !MentionsLastMonth(lower)
      && i <= |lower| && MonthNumberAt(lower, i).Some?
      && forall q :: 0 <= q < i ==> MonthNumberAt(lower, q).None?
    ensures var n := MonthNumberAt(LowerStr(filter), i).value;
      ParseTimeFilter(Some(filter), now) == if 1 <= n <= 12 then Some(YearMonth(n, now.year)) else None
  {
    SearchFindsLeftmost(LowerStr(filter), 0, i);
  }

  /** The search stops exactly at the leftmost match. */
  lemma {:induction false} SearchFindsLeftmost(s: string, p: nat, i: nat)
    requires p <= i <= |s| && MonthNumberAt(s, i).Some?
    requires forall q :: p <= q < i ==> MonthNumberAt(s, q).None?
    ensures MonthNumberSearch(s, p) == Some(i)
    decreases i - p
  {
    if p < i {
      SearchFindsLeftmost(s, p + 1, i);
    }
  }

  /** Without a match anywhere the search finds nothing. */
  lemma {:induction false} SearchFindsNothing(s: string, p: nat)
    requires p <= |s|
    requires forall q :: p <= q <= |s| ==> MonthNumberAt(s, q).None?
    ensures MonthNumberSearch(s, p).None?
    decreases |s| - p
  {
    if p < |s| {
      SearchFindsNothing(s, p + 1);
    }
  }

  /** A phrase with none of the three forms names no month. */
  lemma NoPhraseNoMonth(filter: string, now: YearMonth)
    requires ValidMonth(now)
    requires var lower := LowerStr(filter);
      && !MentionsThisMonth(lower) && !MentionsLastMonth(lower)
      && forall q :: 0 <= q <= |lower| ==> MonthNumberAt(lower, q).None?
    ensures ParseTimeFilter(Some(filter), now).None?
  {
    SearchFindsNothing(LowerStr(filter), 0);
  }

  // ---------------------------------------------------------------------
  // Examples

  /** "Tháng 3" is March of the current year, whatever the current month. */
  lemma MarchExample(filter: string, now: YearMonth)
    requires filter == "Tháng 3" && ValidMonth(now)
    ensures ParseTimeFilter(Some(filter), now) == Some(YearMonth(3, now.year))
  {
    var lower := LowerStr(filter);
    assert lower == "tháng 3";
    assert HasAt(lower, 0, "tháng");
    assert SpacesEnd(lower, 5) == 6;
    assert DigitsEnd(lower, 6) == 7;
    assert lower[6..7] == "3";
    assert DigitsValue("3") == 3;
    assert MonthNumberAt(lower, 0) == Some(3);
    MonthNumberThird(filter, now, 0);
  }

  /** "tháng 13" names no month: there is no fallback to the current one inside the parser. */
  lemma ThirteenthMonthExample(filter: string, now: YearMonth)
    requires filter == "tháng 13" && ValidMonth(now)
    ensures ParseTimeFilter(Some(filter), now).None?
  {
    var lower := LowerStr(filter);
    assert lower == "tháng 13";
    assert HasAt(lower, 0, "tháng");
    assert SpacesEnd(lower, 5) == 6;
    assert DigitsEnd(lower, 6) == 8;
    assert DigitsValue("13") == 13 by {
      assert "13"[..1] == "1";
    }
    assert lower[6..8] == "13";
    assert MonthNumberAt(lower, 0) == Some(13);
    MonthNumberThird(filter, now, 0);
  }

  /** "last month" asked in January is December of the year before. */
  lemma LastMonthInJanuaryExample(filter: string, year: int)
    requires filter == "last month"
    ensures ParseTimeFilter(Some(filter), YearMonth(1, year)) == Some(YearMonth(12, year - 1))
  {
    var lower := LowerStr(filter);
    assert lower == "last month";
    NotContainsByChar(lower, "tháng này", 2);
    NotContainsByChar(lower, "this month", 2);
    assert HasAt(lower, 0, "last month");
  }
}
