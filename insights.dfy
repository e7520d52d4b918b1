/**
 * `analyzeFinancialHealth` and `generateFinancialInsights`: three months of
 * aggregates feed a fixed set of rules that push messages onto four lists
 * (warnings, suggestions, positives, habits) and build a list of advice
 * lines. Division by zero follows the language's floating-point results:
 * `x / 0` is infinite for `x != 0` and not a number for `x == 0`, and every
 * comparison with a value that is not a number is false; those cases are
 * written out explicitly below.
 */
module FinancialInsights {
  import opened Wrappers
  import opened Text
  import opened Calendar
  import opened Ledger
  import opened MonthStats

  // ---------------------------------------------------------------------
  // The monthly aggregates

  /** One entry of `monthsData`; the localised month name is not modelled. */
  datatype MonthHealth = MonthHealth(
    month: YearMonth,
    totalIncome: real,
    totalExpense: real,
    balance: real,
    savingRate: real,
    transactionCount: nat,
    categoryBreakdown: seq<(string, real)>,
    expenseByDay: seq<(int, real)>)

  /** `totalIncome > 0 ? ((totalIncome - totalExpense) / totalIncome) * 100 : 0`. */
  function SavingRate(income: real, expense: real): (r: real)
    ensures income > 0.0 ==> r * income == (income - expense) * 100.0
    ensures income > 0.0 && expense >= 0.0 ==> r <= 100.0
    ensures income <= 0.0 ==> r == 0.0
  {
    if income > 0.0 then (income - expense) / income * 100.0 else 0.0
  }

  /** The entry the loop pushes for month `ym`. */
  function HealthOf(all: seq<Transaction>, ym: YearMonth): MonthHealth {
    var ts := InWindow(all, ym);
    var income := KindTotal(ts, Income);
    var expense := KindTotal(ts, Expense);
    var breakdowns := BreakdownsOf(ts);
    MonthHealth(ym, income, expense, income - expense, SavingRate(income, expense), |ts|, breakdowns.0, breakdowns.1)
  }

  /** `accounts.reduce((sum, acc) => sum + (acc.balance || 0), 0)`. */
  function BalanceTotal(balances: seq<Option<real>>): real
    decreases |balances|
  {
    if balances == [] then 0.0 else BalanceTotal(balances[..|balances| - 1]) + balances[|balances| - 1].GetOr(0.0)
  }

  // ---------------------------------------------------------------------
  // Messages

  const SpikeWarning: string := "Chi tiêu tăng đột biến"
  const OverspendWarning: string := "Chi tiêu vượt thu nhập"
  const ConcentrationPrefix: string := "Chi tiêu quá nhiều cho "
  const ConcentrationMarker: string := "Chi tiêu quá nhiều"
  const ControlledPositive: string := "Chi tiêu được kiểm soát tốt"
  const GoodSavingPositive: string := "Tỷ lệ tiết kiệm tốt"
  const StablePositive: string := "Chi tiêu ổn định"
  const LowSavingSuggestion: string := "Nên tăng tỷ lệ tiết kiệm"
  const DaySpikeHabit: string := "Có ngày chi tiêu đột biến"

  const CutSpendingAdvice: string := "Xem xét cắt giảm chi tiêu không cần thiết"
  const MoreIncomeAdvice: string := "Tìm nguồn thu nhập thêm nếu có thể"
  const LargestCategoriesAdvice: string := "Giảm chi tiêu ở các hạng mục lớn"
  const SavingTargetAdvice: string := "Đặt mục tiêu tiết kiệm ít nhất 20% mỗi tháng"
  const CreateGoalAdvice: string := "Tạo mục tiêu tài chính để có động lực tiết kiệm"
  const DailyTrackingAdvice: string := "Theo dõi chi tiêu hàng ngày để kiểm soát tốt hơn"

  /** The four lists of `insights`. */
  datatype Insights = Insights(warnings: seq<string>, suggestions: seq<string>, positive: seq<string>, habits: seq<string>)

  // ---------------------------------------------------------------------
  // The rules

  function Abs(x: real): real {
    if x < 0.0 then -x else x
  }

  /** `last > 0 ? Math.abs(((cur - last) / last) * 100) : 0`. */
  function ExpenseChangePercent(current: real, last: real): real {
    if last > 0.0 then Abs((current - last) / last * 100.0) else 0.0
  }

  /** Section 1: the spike warning when the expense rose by more than 20%. */
  function TrendWarnings(current: real, last: real): seq<string> {
    if current > last && ExpenseChangePercent(current, last) > 20.0 then [SpikeWarning] else []
  }

  /** Section 1: the "controlled" positive when the expense did not rise. */
  function TrendPositives(current: real, last: real): seq<string> {
    if current > last then [] else [ControlledPositive]
  }

  /** Section 2: a saving rate that is not positive means spending beyond income. */
  function SavingWarnings(rate: real): seq<string> {
    if rate > 0.0 then [] else [OverspendWarning]
  }

  function SavingPositives(rate: real): seq<string> {
    if rate > 0.0 && rate >= 20.0 then [GoodSavingPositive] else []
  }

  function SavingSuggestions(rate: real): seq<string> {
    if rate > 0.0 && !(rate >= 20.0) && rate < 10.0 then [LowSavingSuggestion] else []
  }

  /** `(amount / total) * 100 > 30`, with `total == 0` giving an infinite share for a positive amount and none otherwise. */
  predicate ExceedsShare(amount: real, total: real) {
    if total == 0.0 then amount > 0.0 else amount / total * 100.0 > 30.0
  }

  /** Section 3: one warning per top category whose share of the expense is above 30%, in rank order. */
  function ConcentrationWarnings(top: seq<(string, real)>, total: real): seq<string>
    decreases |top|
  {
    if top == [] then []
    else
      var e := top[|top| - 1];
      ConcentrationWarnings(top[..|top| - 1], total) + (if ExceedsShare(e.1, total) then [ConcentrationPrefix + e.0] else [])
  }

  /** `Math.max(...values)` of a non-empty dictionary. */
  function MaxValue<K>(m: seq<(K, real)>): (r: real)
    requires m != []
    ensures forall k :: 0 <= k < |m| ==> m[k].1 <= r
    ensures exists k :: 0 <= k < |m| && m[k].1 == r
    decreases |m|
  {
    if |m| == 1 then m[0].1
    else
      var rest := MaxValue(m[..|m| - 1]);
      assert forall k :: 0 <= k < |m| - 1 ==> m[..|m| - 1][k] == m[k];
      if m[|m| - 1].1 > rest then m[|m| - 1].1 else rest
  }

  /**
   * Section 4: `max > (total / days) * 3`. Without any expense day the
   * maximum is `-Infinity` and the test is false.
   */
  predicate DaySpike(byDay: seq<(int, real)>, total: real) {
    byDay != [] && MaxValue(byDay) > total / (|byDay| as real) * 3.0
  }

  /** Section 4: `|cur - last| / last < 0.15`; with `last == 0` the quotient is infinite or not a number, and the test is false. */
  predicate Stable(current: real, last: real) {
    last != 0.0 && Abs(current - last) / last < 0.15
  }

  /** Section 5: the advice a warning adds. */
  function AdviceFor(w: string): seq<string> {
    if w == OverspendWarning then [CutSpendingAdvice, MoreIncomeAdvice]
    else if Contains(w, ConcentrationMarker) then [LargestCategoriesAdvice]
    else []
  }

  function AdviceForAll(ws: seq<string>): seq<string>
    decreases |ws|
  {
    if ws == [] then [] else AdviceForAll(ws[..|ws| - 1]) + AdviceFor(ws[|ws| - 1])
  }

  /** Section 5: the advice for each warning, then the saving target, the goal reminder and daily tracking. */
  function AdviceOf(warnings: seq<string>, rate: real, goalCount: nat): seq<string> {
    AdviceForAll(warnings)
      + (if rate > 0.0 && rate < 20.0 then [SavingTargetAdvice] else [])
      + (if goalCount == 0 then [CreateGoalAdvice] else [])
      + [DailyTrackingAdvice]
  }

  /** Everything `generateFinancialInsights` decides, from the current month, the month before and the number of goals. */
  function InsightsOf(current: MonthHealth, last: MonthHealth, goalCount: nat): (Insights, seq<string>) {
    var rate := current.savingRate;
    var top := Top(current.categoryBreakdown, 3, Value);
    var warnings := TrendWarnings(current.totalExpense, last.totalExpense) + SavingWarnings(rate)
      + ConcentrationWarnings(top, current.totalExpense);
    var positive := TrendPositives(current.totalExpense, last.totalExpense) + SavingPositives(rate)
      + (if Stable(current.totalExpense, last.totalExpense) then [StablePositive] else []);
    var habits := if DaySpike(current.expenseByDay, current.totalExpense) then [DaySpikeHabit] else [];
    (Insights(warnings, SavingSuggestions(rate), positive, habits), AdviceOf(warnings, rate, goalCount))
  }

  /** Section 1: the messages the expense trend pushes. */
  method TrendSection(currentExpense: real, lastExpense: real) returns (warnings: seq<string>, positive: seq<string>)
    ensures warnings == TrendWarnings(currentExpense, lastExpense)
    ensures positive == TrendPositives(currentExpense, lastExpense)
  {
    warnings, positive := [], [];
    var increased := currentExpense > lastExpense;
    var expenseChangePercent := ExpenseChangePercent(currentExpense, lastExpense);
    if increased {
      if expenseChangePercent > 20.0 {
        warnings := warnings + [SpikeWarning];
      }
    } else {
      positive := positive + [ControlledPositive];
    }
  }

  /** Section 2: the messages the saving rate pushes. */
  method SavingSection(savingRate: real) returns (warnings: seq<string>, positive: seq<string>, suggestions: seq<string>)
    ensures warnings == SavingWarnings(savingRate)
    ensures positive == SavingPositives(savingRate)
    ensures suggestions == SavingSuggestions(savingRate)
  {
    warnings, positive, suggestions := [], [], [];
    if savingRate > 0.0 {
      if savingRate >= 20.0 {
        positive := positive + [GoodSavingPositive];
      } else if savingRate < 10.0 {
        suggestions := suggestions + [LowSavingSuggestion];
      }
    } else {
      warnings := warnings + [OverspendWarning];
    }
  }

  /** Section 3: `topCategories.forEach(...)` pushing a warning for each category above a 30% share. */
  method PushConcentrationWarnings(warnings: seq<string>, top: seq<(string, real)>, totalExpense: real)
    returns (ws: seq<string>)
    ensures ws == warnings + ConcentrationWarnings(top, totalExpense)
  {
    ws := warnings;
    for i := 0 to |top|
      invariant ws == warnings + ConcentrationWarnings(top[..i], totalExpense)
    {
      assert top[..i + 1][..i] == top[..i];
      var (cat, amount) := top[i];
      if ExceedsShare(amount, totalExpense) {
        ws := ws + [ConcentrationPrefix + cat];
      }
    }
    assert top[..|top|] == top;
  }

  /** Section 5: the advice lines, appended in the order the report prints them. */
  method AdviceLines(warnings: seq<string>, savingRate: real, goalCount: nat) returns (advice: seq<string>)
    ensures advice == AdviceOf(warnings, savingRate, goalCount)
  {
    advice := [];
    for i := 0 to |warnings|
      invariant advice == AdviceForAll(warnings[..i])
    {
      assert warnings[..i + 1][..i] == warnings[..i];
      advice := advice + AdviceFor(warnings[i]);
    }
    assert warnings[..|warnings|] == warnings;
    if savingRate > 0.0 && savingRate < 20.0 {
      advice := advice + [SavingTargetAdvice];
    }
    if goalCount == 0 {
      advice := advice + [CreateGoalAdvice];
    }
    advice := advice + [DailyTrackingAdvice];
  }

  /**
   * `generateFinancialInsights(monthsData, goals, totalBalance)`: only the
   * first two months and the number of goals are read.
   */
  method GenerateFinancialInsights(monthsData: seq<MonthHealth>, goalCount: nat)
    returns (insights: Insights, advice: seq<string>)
    requires |monthsData| >= 2
    ensures (insights, advice) == InsightsOf(monthsData[0], monthsData[1], goalCount)
  {
    var current := monthsData[0];
    var last := monthsData[1];
    var habits: seq<string> := [];

    // 1. The expense trend.
    var warnings, positive := TrendSection(current.totalExpense, last.totalExpense);

    // 2. The saving rate.
    var savingWarnings, savingPositives, suggestions := SavingSection(current.savingRate);
    warnings := warnings + savingWarnings;
    positive := positive + savingPositives;

    // 3. The top three categories.
    var top := Top(current.categoryBreakdown, 3, Value);
    warnings := PushConcentrationWarnings(warnings, top, current.totalExpense);

    // 4. Habits.
    if DaySpike(current.expenseByDay, current.totalExpense) {
      habits := habits + [DaySpikeHabit];
    }
    if Stable(current.totalExpense, last.totalExpense) {
      positive := positive + [StablePositive];
    }

    // 5. Advice.
    advice := AdviceLines(warnings, current.savingRate, goalCount);
    insights := Insights(warnings, suggestions, positive, habits);
    ghost var expected := InsightsOf(current, last, goalCount);
    assert insights.warnings == expected.0.warnings;
    assert insights.positive == expected.0.positive;
    assert insights.habits == expected.0.habits;
    assert advice == expected.1;
  }

  /** The result of `analyzeFinancialHealth`: the three months, the insights, the advice, and the data it passes through. */
  datatype HealthReport = HealthReport(
    monthsData: seq<MonthHealth>,
    insights: Insights,
    advice: seq<string>,
    goalCount: nat,
    totalBalance: real)

  /** One pass of the loop of `analyzeFinancialHealth`: the month's transactions folded into its entry. */
  method MonthHealthAt(all: seq<Transaction>, ym: YearMonth) returns (entry: MonthHealth)
    ensures entry == HealthOf(all, ym)
  {
    var transactions := InWindow(all, ym);
    var totalIncome, totalExpense, categoryBreakdown, expenseByDay := HealthFold(transactions);
    var savingRate := SavingRate(totalIncome, totalExpense);
    entry := MonthHealth(ym, totalIncome, totalExpense, totalIncome - totalExpense, savingRate,
                         |transactions|, categoryBreakdown, expenseByDay);
  }

  /**
   * `analyzeFinancialHealth(userId)` over the user's transactions, goal
   * count and account balances, with the clock read as `now`.
   */
  method AnalyzeFinancialHealth(all: seq<Transaction>, goalCount: nat, accountBalances: seq<Option<real>>, now: YearMonth)
    returns (report: HealthReport)
    ensures |report.monthsData| == 3
    ensures forall i :: 0 <= i < 3 ==> report.monthsData[i] == HealthOf(all, MonthsBack(now, i))
    ensures (report.insights, report.advice) == InsightsOf(report.monthsData[0], report.monthsData[1], goalCount)
    ensures report.goalCount == goalCount && report.totalBalance == BalanceTotal(accountBalances)
  {
    var monthsData: seq<MonthHealth> := [];
    for i := 0 to 3
      invariant |monthsData| == i
      invariant forall k :: 0 <= k < i ==> monthsData[k] == HealthOf(all, MonthsBack(now, k))
    {
      var entry := MonthHealthAt(all, MonthsBack(now, i));
      monthsData := monthsData + [entry];
    }
    var totalBalance := BalanceTotal(accountBalances);
    var insights, advice := GenerateFinancialInsights(monthsData, goalCount);
    report := HealthReport(monthsData, insights, advice, goalCount, totalBalance);
  }
}
