/**
 * The per-month aggregation loop, which the helper writes out three times:
 * `compareMonths` keeps the income and expense totals; `getQuickStats` also
 * counts and totals every transaction by category name; and
 * `analyzeFinancialHealth` breaks the expenses down by category and by day
 * of the month. Each loop is a method proved against the fold it performs;
 * the properties of the folds are lemmas.
 */
module MonthStats {
  import opened Wrappers
  import opened Calendar
  import opened Ledger

  /** The name `getQuickStats` gives a transaction without a category. */
  const NoCategory: string := "Không có danh mục"

  /** The name `analyzeFinancialHealth` gives an expense without a category. */
  const OtherCategory: string := "Khác"

  // ---------------------------------------------------------------------
  // Income and expense totals (`compareMonths`)

  /** The `forEach` that adds `t.amount || 0` to the income or the expense total by type. */
  method SumIncomeExpense(ts: seq<Transaction>) returns (totalIncome: real, totalExpense: real)
    ensures totalIncome == KindTotal(ts, Income)
    ensures totalExpense == KindTotal(ts, Expense)
  {
    totalIncome, totalExpense := 0.0, 0.0;
    for i := 0 to |ts|
      invariant totalIncome == KindTotal(ts[..i], Income)
      invariant totalExpense == KindTotal(ts[..i], Expense)
    {
      assert ts[..i + 1][..i] == ts[..i];
      var t := ts[i];
      if t.kind == Income {
        totalIncome := totalIncome + Amount(t);
      } else if t.kind == Expense {
        totalExpense := totalExpense + Amount(t);
      }
    }
    assert ts[..|ts|] == ts;
  }

  // ---------------------------------------------------------------------
  // Category statistics (`getQuickStats`)

  /** `{ total, count, type }`: the type is that of the first transaction seen under the name. */
  datatype CategoryStat = CategoryStat(total: real, count: nat, kind: Kind)

  /** One step of the loop: create the entry if missing, then add the amount and count the transaction. */
  function RecordCategory(stats: seq<(string, CategoryStat)>, t: Transaction): seq<(string, CategoryStat)> {
    var name := CategoryName(t, NoCategory);
    match Find(stats, name)
    case Some(j) =>
      var s := stats[j].1;
      stats[j := (name, CategoryStat(s.total + Amount(t), s.count + 1, s.kind))]
    case None => stats + [(name, CategoryStat(0.0 + Amount(t), 1, t.kind))]
  }

  /** `categoryStats` after the loop has seen every transaction of `ts`, in order. */
  function CategoryStatsOf(ts: seq<Transaction>): seq<(string, CategoryStat)>
    decreases |ts|
  {
    if ts == [] then [] else RecordCategory(CategoryStatsOf(ts[..|ts| - 1]), ts[|ts| - 1])
  }

  /** The per-month fold of `getQuickStats`: totals by type, and statistics by category name for every transaction. */
  method QuickStatsFold(ts: seq<Transaction>)
    returns (totalIncome: real, totalExpense: real, categoryStats: seq<(string, CategoryStat)>)
    ensures totalIncome == KindTotal(ts, Income)
    ensures totalExpense == KindTotal(ts, Expense)
    ensures categoryStats == CategoryStatsOf(ts)
  {
    totalIncome, totalExpense := 0.0, 0.0;
    categoryStats := [];
    for i := 0 to |ts|
      invariant totalIncome == KindTotal(ts[..i], Income)
      invariant totalExpense == KindTotal(ts[..i], Expense)
      invariant categoryStats == CategoryStatsOf(ts[..i])
    {
      assert ts[..i + 1][..i] == ts[..i];
      var t := ts[i];
      if t.kind == Income {
        totalIncome := totalIncome + Amount(t);
      } else if t.kind == Expense {
        totalExpense := totalExpense + Amount(t);
      }
      var name := CategoryName(t, NoCategory);
      var found := Find(categoryStats, name);
      if found.None? {
        categoryStats := categoryStats + [(name, CategoryStat(0.0, 0, t.kind))];
      }
      var j := if found.Some? then found.value else |categoryStats| - 1;
      var s := categoryStats[j].1;
      categoryStats := categoryStats[j := (name, CategoryStat(s.total + Amount(t), s.count + 1, s.kind))];
    }
    assert ts[..|ts|] == ts;
  }

  function StatCount(e: (string, CategoryStat)): real {
    e.1.count as real
  }

  function StatTotal(e: (string, CategoryStat)): real {
    e.1.total
  }

  /** The number of transactions of `ts` filed under `name`. */
  function CountNamed(ts: seq<Transaction>, name: string): nat
    decreases |ts|
  {
    if ts == [] then 0
    else CountNamed(ts[..|ts| - 1], name) + (if CategoryName(ts[|ts| - 1], NoCategory) == name then 1 else 0)
  }

  /** The sum of the amounts of `ts` filed under `name`, whatever their type. */
  function TotalNamed(ts: seq<Transaction>, name: string): real
    decreases |ts|
  {
    if ts == [] then 0.0
    else TotalNamed(ts[..|ts| - 1], name) + (if CategoryName(ts[|ts| - 1], NoCategory) == name then Amount(ts[|ts| - 1]) else 0.0)
  }

  /** No transaction filed under a name means nothing to total under it. */
  lemma {:induction false} UnnamedTotalZero(ts: seq<Transaction>, name: string)
    requires CountNamed(ts, name) == 0
    ensures TotalNamed(ts, name) == 0.0
    decreases |ts|
  {
    if ts != [] {
      UnnamedTotalZero(ts[..|ts| - 1], name);
    }
  }

  /** Every category name appears once. */
  lemma {:induction false} CategoryStatsDistinct(ts: seq<Transaction>)
    ensures DistinctKeys(CategoryStatsOf(ts))
    decreases |ts|
  {
    if ts != [] {
      var prev := CategoryStatsOf(ts[..|ts| - 1]);
      CategoryStatsDistinct(ts[..|ts| - 1]);
      var name := CategoryName(ts[|ts| - 1], NoCategory);
      match Find(prev, name)
      case Some(j) =>
      case None =>
    }
  }

  /** The category counts add up to the number of transactions in the month. */
  lemma {:induction false} CategoryCountsSumToCount(ts: seq<Transaction>)
    ensures SumOf(CategoryStatsOf(ts), StatCount) == |ts| as real
    decreases |ts|
  {
    if ts != [] {
      var prev := CategoryStatsOf(ts[..|ts| - 1]);
      var t := ts[|ts| - 1];
      CategoryCountsSumToCount(ts[..|ts| - 1]);
      var name := CategoryName(t, NoCategory);
      match Find(prev, name)
      case Some(j) =>
        var s := prev[j].1;
        SumOfUpdate(prev, j, (name, CategoryStat(s.total + Amount(t), s.count + 1, s.kind)), StatCount);
      case None =>
        SumOfAppend(prev, (name, CategoryStat(0.0 + Amount(t), 1, t.kind)), StatCount);
    }
  }

  /** The category totals add up to every amount of the month, income included. */
  lemma {:induction false} CategoryTotalsSumToAmounts(ts: seq<Transaction>)
    ensures SumOf(CategoryStatsOf(ts), StatTotal) == AmountTotal(ts)
    decreases |ts|
  {
    if ts != [] {
      var prev := CategoryStatsOf(ts[..|ts| - 1]);
      var t := ts[|ts| - 1];
      CategoryTotalsSumToAmounts(ts[..|ts| - 1]);
      var name := CategoryName(t, NoCategory);
      match Find(prev, name)
      case Some(j) =>
        var s := prev[j].1;
        SumOfUpdate(prev, j, (name, CategoryStat(s.total + Amount(t), s.count + 1, s.kind)), StatTotal);
      case None =>
        SumOfAppend(prev, (name, CategoryStat(0.0 + Amount(t), 1, t.kind)), StatTotal);
    }
  }

  /**
   * A name has an entry exactly when some transaction is filed under it, and
   * the entry's count and total are those of the transactions filed under it.
   */
  lemma {:induction false} CategoryEntryCountsItsTransactions(ts: seq<Transaction>, name: string)
    ensures var f := Find(CategoryStatsOf(ts), name);
      && (f.Some? <==> CountNamed(ts, name) > 0)
      && (f.Some? ==> CategoryStatsOf(ts)[f.value].1.count == CountNamed(ts, name))
      && (f.Some? ==> CategoryStatsOf(ts)[f.value].1.total == TotalNamed(ts, name))
    decreases |ts|
  {
    if ts != [] {
      var before := ts[..|ts| - 1];
      var prev := CategoryStatsOf(before);
      var t := ts[|ts| - 1];
      var cur := CategoryStatsOf(ts);
      CategoryEntryCountsItsTransactions(before, name);
      CategoryStatsDistinct(ts);
      var tname := CategoryName(t, NoCategory);
      match Find(prev, tname)
      case Some(j) =>
        if Find(prev, name).Some? {
          FindUnique(cur, name, Find(prev, name).value);
        } else {
          assert tname != name;
          assert Find(cur, name).None?;
        }
      case None =>
        if tname == name {
          FindUnique(cur, name, |prev|);
          UnnamedTotalZero(before, name);
        } else if Find(prev, name).Some? {
          FindUnique(cur, name, Find(prev, name).value);
        } else {
          assert Find(cur, name).None?;
        }
    }
  }

  /** `.sort(([, a], [, b]) => b.total - a.total).slice(0, 5)`: the five largest category totals. */
  function TopCategories(stats: seq<(string, CategoryStat)>): seq<(string, CategoryStat)> {
    Top(stats, 5, StatTotal)
  }

  // ---------------------------------------------------------------------
  // Expense breakdowns (`analyzeFinancialHealth`)

  /** One step of the loop: only expenses are broken down, by category name and by day of the month. */
  function RecordExpense(breakdown: seq<(string, real)>, byDay: seq<(int, real)>, t: Transaction)
    : (seq<(string, real)>, seq<(int, real)>)
  {
    if t.kind == Expense then
      (AddTo(breakdown, CategoryName(t, OtherCategory), Amount(t)), AddTo(byDay, t.date.day, Amount(t)))
    else (breakdown, byDay)
  }

  /** `categoryBreakdown` and `expenseByDay` after the loop has seen every transaction of `ts`. */
  function BreakdownsOf(ts: seq<Transaction>): (seq<(string, real)>, seq<(int, real)>)
    decreases |ts|
  {
    if ts == [] then ([], [])
    else
      var prev := BreakdownsOf(ts[..|ts| - 1]);
      RecordExpense(prev.0, prev.1, ts[|ts| - 1])
  }

  /** The per-month fold of `analyzeFinancialHealth`. */
  method HealthFold(ts: seq<Transaction>)
    returns (totalIncome: real, totalExpense: real, categoryBreakdown: seq<(string, real)>, expenseByDay: seq<(int, real)>)
    ensures totalIncome == KindTotal(ts, Income)
    ensures totalExpense == KindTotal(ts, Expense)
    ensures (categoryBreakdown, expenseByDay) == BreakdownsOf(ts)
  {
    totalIncome, totalExpense := 0.0, 0.0;
    categoryBreakdown, expenseByDay := [], [];
    for i := 0 to |ts|
      invariant totalIncome == KindTotal(ts[..i], Income)
      invariant totalExpense == KindTotal(ts[..i], Expense)
      invariant (categoryBreakdown, expenseByDay) == BreakdownsOf(ts[..i])
    {
      assert ts[..i + 1][..i] == ts[..i];
      var t := ts[i];
      if t.kind == Income {
        totalIncome := totalIncome + Amount(t);
      } else if t.kind == Expense {
        totalExpense := totalExpense + Amount(t);
        categoryBreakdown := AddTo(categoryBreakdown, CategoryName(t, OtherCategory), Amount(t));
        expenseByDay := AddTo(expenseByDay, t.date.day, Amount(t));
      }
    }
    assert ts[..|ts|] == ts;
  }

  /** Both breakdowns add up to the month's expense total, and each has one entry per key. */
  lemma {:induction false} BreakdownsSumToExpense(ts: seq<Transaction>)
    ensures SumOf(BreakdownsOf(ts).0, Value) == KindTotal(ts, Expense)
    ensures SumOf(BreakdownsOf(ts).1, Value) == KindTotal(ts, Expense)
    ensures DistinctKeys(BreakdownsOf(ts).0) && DistinctKeys(BreakdownsOf(ts).1)
    decreases |ts|
  {
    if ts != [] {
      var prev := BreakdownsOf(ts[..|ts| - 1]);
      var t := ts[|ts| - 1];
      BreakdownsSumToExpense(ts[..|ts| - 1]);
      if t.kind == Expense {
        AddToSum(prev.0, CategoryName(t, OtherCategory), Amount(t));
        AddToSum(prev.1, t.date.day, Amount(t));
      }
    }
  }

  /** How many expenses of `ts` are filed under `name`, uncategorised ones under `Other`. */
  function ExpenseCountNamed(ts: seq<Transaction>, name: string): nat
    decreases |ts|
  {
    if ts == [] then 0
    else
      var t := ts[|ts| - 1];
      ExpenseCountNamed(ts[..|ts| - 1], name) + (if t.kind == Expense && CategoryName(t, OtherCategory) == name then 1 else 0)
  }

  /** The sum of the amounts of the expenses of `ts` filed under `name`. */
  function ExpenseNamed(ts: seq<Transaction>, name: string): real
    decreases |ts|
  {
    if ts == [] then 0.0
    else
      var t := ts[|ts| - 1];
      ExpenseNamed(ts[..|ts| - 1], name) + (if t.kind == Expense && CategoryName(t, OtherCategory) == name then Amount(t) else 0.0)
  }

  /** How many expenses of `ts` are dated on day `d` of the month. */
  function ExpenseCountOnDay(ts: seq<Transaction>, d: int): nat
    decreases |ts|
  {
    if ts == [] then 0
    else
      var t := ts[|ts| - 1];
      ExpenseCountOnDay(ts[..|ts| - 1], d) + (if t.kind == Expense && t.date.day == d then 1 else 0)
  }

  /** The sum of the amounts of the expenses of `ts` dated on day `d` of the month. */
  function ExpenseOnDay(ts: seq<Transaction>, d: int): real
    decreases |ts|
  {
    if ts == [] then 0.0
    else
      var t := ts[|ts| - 1];
      ExpenseOnDay(ts[..|ts| - 1], d) + (if t.kind == Expense && t.date.day == d then Amount(t) else 0.0)
  }

  lemma {:induction false} UnnamedExpenseZero(ts: seq<Transaction>, name: string)
    requires ExpenseCountNamed(ts, name) == 0
    ensures ExpenseNamed(ts, name) == 0.0
    decreases |ts|
  {
    if ts != [] {
      UnnamedExpenseZero(ts[..|ts| - 1], name);
    }
  }

  lemma {:induction false} NoExpenseOnDayZero(ts: seq<Transaction>, d: int)
    requires ExpenseCountOnDay(ts, d) == 0
    ensures ExpenseOnDay(ts, d) == 0.0
    decreases |ts|
  {
    if ts != [] {
      NoExpenseOnDayZero(ts[..|ts| - 1], d);
    }
  }

  /**
   * `categoryBreakdown[name]` is present exactly when some expense is filed under `name`,
   * and then it is the total of those expenses.
   */
  lemma {:induction false} BreakdownEntryIsCategoryExpense(ts: seq<Transaction>, name: string)
    ensures Lookup(BreakdownsOf(ts).0, name)
      == if ExpenseCountNamed(ts, name) > 0 then Some(ExpenseNamed(ts, name)) else None
    decreases |ts|
  {
    if ts != [] {
      var before := ts[..|ts| - 1];
      var t := ts[|ts| - 1];
      BreakdownEntryIsCategoryExpense(before, name);
      BreakdownsSumToExpense(before);
      if t.kind == Expense {
        var tname := CategoryName(t, OtherCategory);
        var prev := BreakdownsOf(before).0;
        assert BreakdownsOf(ts).0 == AddTo(prev, tname, Amount(t));
        AddToLookup(prev, tname, Amount(t), name);
        if tname == name {
          assert ExpenseCountNamed(ts, name) == ExpenseCountNamed(before, name) + 1;
          assert ExpenseNamed(ts, name) == ExpenseNamed(before, name) + Amount(t);
          if ExpenseCountNamed(before, name) == 0 {
            UnnamedExpenseZero(before, name);
          }
        } else {
          assert ExpenseCountNamed(ts, name) == ExpenseCountNamed(before, name);
          assert ExpenseNamed(ts, name) == ExpenseNamed(before, name);
        }
      } else {
        assert BreakdownsOf(ts).0 == BreakdownsOf(before).0;
        assert ExpenseCountNamed(ts, name) == ExpenseCountNamed(before, name);
        assert ExpenseNamed(ts, name) == ExpenseNamed(before, name);
      }
    }
  }

  /**
   * `expenseByDay[d]` is present exactly when some expense is dated on day `d`,
   * and then it is the total of those expenses.
   */
  lemma {:induction false} DayEntryIsDayExpense(ts: seq<Transaction>, d: int)
    ensures Lookup(BreakdownsOf(ts).1, d)
      == if ExpenseCountOnDay(ts, d) > 0 then Some(ExpenseOnDay(ts, d)) else None
    decreases |ts|
  {
    if ts != [] {
      var before := ts[..|ts| - 1];
      var t := ts[|ts| - 1];
      DayEntryIsDayExpense(before, d);
      BreakdownsSumToExpense(before);
      if t.kind == Expense {
        var prev := BreakdownsOf(before).1;
        assert BreakdownsOf(ts).1 == AddTo(prev, t.date.day, Amount(t));
        AddToLookup(prev, t.date.day, Amount(t), d);
        if t.date.day == d {
          assert ExpenseCountOnDay(ts, d) == ExpenseCountOnDay(before, d) + 1;
          assert ExpenseOnDay(ts, d) == ExpenseOnDay(before, d) + Amount(t);
          if ExpenseCountOnDay(before, d) == 0 {
            NoExpenseOnDayZero(before, d);
          }
        } else {
          assert ExpenseCountOnDay(ts, d) == ExpenseCountOnDay(before, d);
          assert ExpenseOnDay(ts, d) == ExpenseOnDay(before, d);
        }
      } else {
        assert BreakdownsOf(ts).1 == BreakdownsOf(before).1;
        assert ExpenseCountOnDay(ts, d) == ExpenseCountOnDay(before, d);
        assert ExpenseOnDay(ts, d) == ExpenseOnDay(before, d);
      }
    }
  }

  /** With valid dates, the day keys are days of a month. */
  lemma {:induction false} DayKeysAreDays(ts: seq<Transaction>)
    requires forall i :: 0 <= i < |ts| ==> ValidDate(ts[i].date)
    ensures forall k :: 0 <= k < |BreakdownsOf(ts).1| ==> 1 <= BreakdownsOf(ts).1[k].0 <= 31
    decreases |ts|
  {
    if ts != [] {
      DayKeysAreDays(ts[..|ts| - 1]);
    }
  }

  /** With no negative amounts, every breakdown value is non-negative. */
  lemma {:induction false} BreakdownValuesNonNegative(ts: seq<Transaction>)
    requires forall i :: 0 <= i < |ts| ==> Amount(ts[i]) >= 0.0
    ensures forall k :: 0 <= k < |BreakdownsOf(ts).0| ==> BreakdownsOf(ts).0[k].1 >= 0.0
    ensures forall k :: 0 <= k < |BreakdownsOf(ts).1| ==> BreakdownsOf(ts).1[k].1 >= 0.0
    decreases |ts|
  {
    if ts != [] {
      BreakdownValuesNonNegative(ts[..|ts| - 1]);
    }
  }
}
