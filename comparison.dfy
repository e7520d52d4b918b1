/**
 * `compareMonths`: the income and expense totals of the last `months`
 * months, most recent first; the months with the highest and the lowest
 * expense, picked from a stable descending sort; and the percentage change
 * of the expense from the previous month to the current one.
 */
module MonthComparison {
  import opened Wrappers
  import opened Calendar
  import opened Ledger
  import opened MonthStats

  /** One entry of `monthsData`; the localised month name is not modelled. */
  datatype MonthSummary = MonthSummary(
    month: YearMonth,
    totalIncome: real,
    totalExpense: real,
    balance: real,
    transactionCount: nat)

  /** The entry the loop pushes for month `ym`. */
  function SummaryOf(all: seq<Transaction>, ym: YearMonth): (m: MonthSummary)
    ensures m.balance == m.totalIncome - m.totalExpense
  {
    var ts := InWindow(all, ym);
    MonthSummary(ym, KindTotal(ts, Income), KindTotal(ts, Expense),
                 KindTotal(ts, Income) - KindTotal(ts, Expense), |ts|)
  }

  function ExpenseKey(m: MonthSummary): real {
    m.totalExpense
  }

  /** `lastMonth.totalExpense > 0 ? ((cur - last) / last) * 100 : 0`. */
  function ExpenseChange(current: real, previous: real): (r: real)
    ensures previous > 0.0 ==> r * previous == (current - previous) * 100.0
    ensures previous <= 0.0 ==> r == 0.0
  {
    if previous > 0.0 then (current - previous) / previous * 100.0 else 0.0
  }

  /** The change is positive exactly when the expense grew from a positive amount, and negative exactly when it shrank from one. */
  lemma ExpenseChangeSign(current: real, previous: real)
    ensures ExpenseChange(current, previous) > 0.0 <==> previous > 0.0 && current > previous
    ensures ExpenseChange(current, previous) < 0.0 <==> previous > 0.0 && current < previous
    ensures previous <= 0.0 ==> ExpenseChange(current, previous) == 0.0
  {
    if previous > 0.0 {
      var d := current - previous;
      assert d / previous * 100.0 == d * (100.0 / previous);
      assert 100.0 / previous > 0.0;
    }
  }

  /** The comparison's data: the months, most recent first, and the picks made from them. */
  datatype Comparison = Comparison(
    monthsData: seq<MonthSummary>,
    highest: MonthSummary,
    lowest: MonthSummary,
    expenseChange: real)

  /** The caught error: fewer than two months leaves `monthsData[1]` undefined. */
  datatype CompareError = CompareFailed

  /**
   * `compareMonths(userId, months)` over the user's transactions `all`, with
   * the clock read as `now`.
   */
  method CompareMonths(all: seq<Transaction>, now: YearMonth, months: int) returns (r: Result<Comparison, CompareError>)
    ensures r.Failure? <==> months < 2
    ensures r.Success? ==>
      var data := r.value.monthsData;
      && |data| == months
      && (forall i :: 0 <= i < months ==> data[i] == SummaryOf(all, MonthsBack(now, i)))
      && r.value.highest == data[FirstMaxIndex(data, ExpenseKey)]
      && r.value.lowest == data[LastMinIndex(data, ExpenseKey)]
      && r.value.expenseChange == ExpenseChange(data[0].totalExpense, data[1].totalExpense)
  {
    var monthsData: seq<MonthSummary> := [];
    var n := if months > 0 then months else 0;
    for i := 0 to n
      invariant |monthsData| == i
      invariant forall k :: 0 <= k < i ==> monthsData[k] == SummaryOf(all, MonthsBack(now, k))
    {
      var ym := MonthsBack(now, i);
      var transactions := InWindow(all, ym);
      var totalIncome, totalExpense := SumIncomeExpense(transactions);
      var entry := MonthSummary(ym, totalIncome, totalExpense, totalIncome - totalExpense, |transactions|);
      assert entry == SummaryOf(all, ym);
      monthsData := monthsData + [entry];
    }
    if n < 2 {
      return Failure(CompareFailed);
    }
    var sortedByExpense := SortDescending(monthsData, ExpenseKey);
    var highest := sortedByExpense[0];
    var lowest := sortedByExpense[|sortedByExpense| - 1];
    assert highest == monthsData[FirstMaxIndex(monthsData, ExpenseKey)] by {
      SortHeadIsFirstMax(monthsData, ExpenseKey, FirstMaxIndex(monthsData, ExpenseKey));
    }
    assert lowest == monthsData[LastMinIndex(monthsData, ExpenseKey)] by {
      SortLastIsLastMin(monthsData, ExpenseKey, LastMinIndex(monthsData, ExpenseKey));
    }
    var current := monthsData[0];
    var lastMonth := monthsData[1];
    var expenseChange := ExpenseChange(current.totalExpense, lastMonth.totalExpense);
    r := Success(Comparison(monthsData, highest, lowest, expenseChange));
  }

  // ---------------------------------------------------------------------
  // Properties of the month sequence

  /** Each entry is the month right before the previous entry. */
  lemma ConsecutiveMonths(now: YearMonth, i: int)
    ensures MonthsBack(MonthsBack(now, i), 1) == MonthsBack(now, i + 1)
  {
    MonthsBackAdd(now, i, 1);
  }

  /** Different entries are different calendar months. */
  lemma EntriesAreDistinctMonths(now: YearMonth, i: int, j: int)
    requires i != j
    ensures MonthsBack(now, i) != MonthsBack(now, j)
  {
    assert MonthIndex(MonthsBack(now, i)) != MonthIndex(MonthsBack(now, j));
  }

  /** The first entry is the current month. */
  lemma FirstEntryIsCurrentMonth(now: YearMonth)
    requires ValidMonth(now)
    ensures MonthsBack(now, 0) == now
  {
    MonthsBackZero(now);
  }

  /** The highest month spends at least as much as any month, and more than every more recent month. */
  lemma HighestIsMostRecentMaximum(data: seq<MonthSummary>)
    requires data != []
    ensures var h := FirstMaxIndex(data, ExpenseKey);
      && (forall j :: 0 <= j < |data| ==> data[j].totalExpense <= data[h].totalExpense)
      && (forall j :: 0 <= j < h ==> data[j].totalExpense < data[h].totalExpense)
  {
    var h := FirstMaxIndex(data, ExpenseKey);
    assert IsFirstMax(data, h, ExpenseKey);
    forall j | 0 <= j < |data| ensures data[j].totalExpense <= data[h].totalExpense {
      assert ExpenseKey(data[j]) <= ExpenseKey(data[h]);
    }
    forall j | 0 <= j < h ensures data[j].totalExpense < data[h].totalExpense {
      assert ExpenseKey(data[j]) < ExpenseKey(data[h]);
    }
  }

  /** The lowest month spends at most as much as any month, and less than every older month. */
  lemma LowestIsOldestMinimum(data: seq<MonthSummary>)
    requires data != []
    ensures var l := LastMinIndex(data, ExpenseKey);
      && (forall j :: 0 <= j < |data| ==> data[j].totalExpense >= data[l].totalExpense)
      && (forall j :: l < j < |data| ==> data[j].totalExpense > data[l].totalExpense)
  {
    var l := LastMinIndex(data, ExpenseKey);
    assert IsLastMin(data, l, ExpenseKey);
    forall j | 0 <= j < |data| ensures data[j].totalExpense >= data[l].totalExpense {
      assert ExpenseKey(data[j]) >= ExpenseKey(data[l]);
    }
    forall j | l < j < |data| ensures data[j].totalExpense > data[l].totalExpense {
      assert ExpenseKey(data[j]) > ExpenseKey(data[l]);
    }
  }

  // ---------------------------------------------------------------------
  // The badges of the report

  /** The marks the report puts after a month's name: 🔴 for the highest, otherwise 🟢 for the lowest. */
  datatype Badge = HighestBadge | LowestBadge | NoBadge

  /** `isHighest ? " 🔴" : isLowest ? " 🟢" : ""`, comparing month and year. */
  function BadgeOf(entry: MonthSummary, highest: MonthSummary, lowest: MonthSummary): Badge {
    if entry.month == highest.month then HighestBadge
    else if entry.month == lowest.month then LowestBadge
    else NoBadge
  }

  /** In a comparison, exactly the highest entry carries the red badge. */
  lemma RedBadgeOnHighestOnly(all: seq<Transaction>, now: YearMonth, c: Comparison, i: nat)
    requires |c.monthsData| >= 1 && i < |c.monthsData|
    requires forall k :: 0 <= k < |c.monthsData| ==> c.monthsData[k] == SummaryOf(all, MonthsBack(now, k))
    requires c.highest == c.monthsData[FirstMaxIndex(c.monthsData, ExpenseKey)]
    ensures BadgeOf(c.monthsData[i], c.highest, c.lowest) == HighestBadge <==> i == FirstMaxIndex(c.monthsData, ExpenseKey)
  {
    var h := FirstMaxIndex(c.monthsData, ExpenseKey);
    if i != h {
      EntriesAreDistinctMonths(now, i, h);
    }
  }

  /** The green badge goes exactly to the lowest entry, unless that entry is also the highest. */
  lemma GreenBadgeOnLowestOnly(all: seq<Transaction>, now: YearMonth, c: Comparison, i: nat)
    requires |c.monthsData| >= 1 && i < |c.monthsData|
    requires forall k :: 0 <= k < |c.monthsData| ==> c.monthsData[k] == SummaryOf(all, MonthsBack(now, k))
    requires c.highest == c.monthsData[FirstMaxIndex(c.monthsData, ExpenseKey)]
    requires c.lowest == c.monthsData[LastMinIndex(c.monthsData, ExpenseKey)]
    ensures BadgeOf(c.monthsData[i], c.highest, c.lowest) == LowestBadge
      <==> i == LastMinIndex(c.monthsData, ExpenseKey) && i != FirstMaxIndex(c.monthsData, ExpenseKey)
  {
    var h := FirstMaxIndex(c.monthsData, ExpenseKey);
    var l := LastMinIndex(c.monthsData, ExpenseKey);
    if i != h {
      EntriesAreDistinctMonths(now, i, h);
    }
    if i != l {
      EntriesAreDistinctMonths(now, i, l);
    }
  }
}
