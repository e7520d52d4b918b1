/**
 * `getQuickStats` and `getQuickStatsWithFilter`: the report on one month's
 * transactions, for a month given by the caller, resolved from a time
 * phrase, or taken from the clock. The database query is the window filter
 * over the user's transactions `all`; the report text is not modelled.
 */
module QuickStats {
  import opened Wrappers
  import opened Calendar
  import opened Ledger
  import opened MonthStats
  import opened TimeFilter

  /** The `data` of the report; `month` and `year` are the values asked for, before `Date` normalises them. */
  datatype QuickStatsReport = QuickStatsReport(
    month: int,
    year: int,
    totalIncome: real,
    totalExpense: real,
    balance: real,
    transactionCount: nat,
    categoryStats: seq<(string, CategoryStat)>,
    topCategories: seq<(string, CategoryStat)>)

  /** What the report says about the transactions of month `ym`. */
  predicate Reports(r: QuickStatsReport, all: seq<Transaction>, ym: YearMonth) {
    var ts := InWindow(all, ym);
    && r.month == ym.month && r.year == ym.year
    && r.totalIncome == KindTotal(ts, Income)
    && r.totalExpense == KindTotal(ts, Expense)
    && r.balance == r.totalIncome - r.totalExpense
    && r.transactionCount == |ts|
    && r.categoryStats == CategoryStatsOf(ts)
    && r.topCategories == TopCategories(r.categoryStats)
  }

  /**
   * `getQuickStats(userId, targetMonth, targetYear)`: an absent or zero
   * month or year is taken from the clock `now`.
   */
  method GetQuickStats(all: seq<Transaction>, targetMonth: Option<int>, targetYear: Option<int>, now: YearMonth)
    returns (r: QuickStatsReport)
    ensures Reports(r, all, SelectMonth(targetMonth, targetYear, now))
    ensures DistinctKeys(r.categoryStats)
    ensures SumOf(r.categoryStats, StatCount) == r.transactionCount as real
    ensures SumOf(r.categoryStats, StatTotal) == r.totalIncome + r.totalExpense + UnclassifiedTotal(InWindow(all, SelectMonth(targetMonth, targetYear, now)))
    ensures |r.topCategories| <= 5 && SortedDescending(r.topCategories, StatTotal)
  {
    var month := if targetMonth.Some? && targetMonth.value != 0 then targetMonth.value else now.month;
    var year := if targetYear.Some? && targetYear.value != 0 then targetYear.value else now.year;
    var ym := YearMonth(month, year);
    var transactions := InWindow(all, ym);
    var totalIncome, totalExpense, categoryStats := QuickStatsFold(transactions);
    var balance := totalIncome - totalExpense;
    var topCategories := TopCategories(categoryStats);
    r := QuickStatsReport(month, year, totalIncome, totalExpense, balance, |transactions|, categoryStats, topCategories);
    CategoryStatsDistinct(transactions);
    CategoryCountsSumToCount(transactions);
    CategoryTotalsSumToAmounts(transactions);
    TotalsPartition(transactions);
    TopSelects(categoryStats, 5, StatTotal);
  }

  /**
   * `getQuickStatsWithFilter(userId, timeFilter)`: the month the phrase
   * names, or the current month when it names none.
   */
  method GetQuickStatsWithFilter(all: seq<Transaction>, timeFilter: Option<string>, now: YearMonth)
    returns (r: QuickStatsReport)
    requires ValidMonth(now)
    ensures Reports(r, all, StatsMonth(timeFilter, now))
  {
    var targetMonth := now.month;
    var targetYear := now.year;
    if !Falsy(timeFilter) {
      var timeInfo := ParseTimeFilter(timeFilter, now);
      if timeInfo.Some? {
        targetMonth := timeInfo.value.month;
        targetYear := timeInfo.value.year;
      }
    }
    r := GetQuickStats(all, Some(targetMonth), Some(targetYear), now);
  }

  /** The report covers exactly the transactions dated in the calendar month asked for. */
  lemma ReportCoversCalendarMonth(all: seq<Transaction>, ym: YearMonth, t: Transaction)
    requires ValidDate(t.date)
    ensures t in InWindow(all, ym) <==> t in all && MonthIndex(YearMonth(t.date.month, t.date.year)) == MonthIndex(ym)
  {
    WindowIsCalendarMonth(t.date, ym);
  }

  /** An expense of 500,000 on 5 March 2024 and an income of 2,000,000 on 10 March 2024: the March report. */
  lemma MarchReportExample(all: seq<Transaction>, r: QuickStatsReport)
    requires all == [Transaction(Expense, Some(500000.0), None, DateTime(2024, 3, 5, 0)),
                     Transaction(Income, Some(2000000.0), None, DateTime(2024, 3, 10, 0))]
    requires Reports(r, all, YearMonth(3, 2024))
    ensures r.totalIncome == 2000000.0 && r.totalExpense == 500000.0
    ensures r.balance == 1500000.0 && r.transactionCount == 2
  {
    MarchWindowKeepsBoth(all);
    MarchTotals(all);
  }

  lemma MarchTotals(all: seq<Transaction>)
    requires all == [Transaction(Expense, Some(500000.0), None, DateTime(2024, 3, 5, 0)),
                     Transaction(Income, Some(2000000.0), None, DateTime(2024, 3, 10, 0))]
    ensures KindTotal(all, Income) == 2000000.0 && KindTotal(all, Expense) == 500000.0
  {
    var head := all[..1];
    assert KindTotal(head, Income) == 0.0 && KindTotal(head, Expense) == 500000.0 by {
      assert head[..0] == [];
    }
    assert KindTotal(all, Income) == KindTotal(head, Income) + KindAmount(all[1], Income);
    assert KindTotal(all, Expense) == KindTotal(head, Expense) + KindAmount(all[1], Expense);
  }

  /** Both transactions of the example fall in the March 2024 window. */
  lemma MarchWindowKeepsBoth(all: seq<Transaction>)
    requires all == [Transaction(Expense, Some(500000.0), None, DateTime(2024, 3, 5, 0)),
                     Transaction(Income, Some(2000000.0), None, DateTime(2024, 3, 10, 0))]
    ensures InWindow(all, YearMonth(3, 2024)) == all
  {
    var ym := YearMonth(3, 2024);
    InMarch2024(all[0].date);
    InMarch2024(all[1].date);
    assert InWindow(all[..1], ym) == all[..1] by {
      assert all[..1][..0] == [];
    }
    assert all[..1] + [all[1]] == all;
  }

  /** A time of day in March 2024 lies in the March 2024 window. */
  lemma InMarch2024(d: DateTime)
    requires d.year == 2024 && d.month == 3 && 1 <= d.day <= 31 && 0 <= d.millis <= LastMillisOfDay
    ensures InMonthWindow(d, YearMonth(3, 2024))
  {
    WindowIsCalendarMonth(d, YearMonth(3, 2024));
  }
}
