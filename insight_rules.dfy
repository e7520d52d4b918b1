/**
 * What the rules of `generateFinancialInsights` decide, message by message:
 * each message appears exactly when its condition on the month's totals
 * holds, with the divisions of the source written as comparisons.
 */
module InsightRules {
  import opened Text
  import opened Calendar
  import opened Ledger
  import opened MonthStats
  import opened FinancialInsights

  // ---------------------------------------------------------------------
  // Arithmetic of the thresholds

  /** Dividing by a positive number keeps a comparison from above. */
  lemma DivAbove(x: real, y: real, c: real)
    requires y > 0.0
    ensures x / y > c <==> x > c * y
  {
    var q := x / y;
    assert q * y == x;
  }

  /** Dividing by a positive number keeps a comparison from below. */
  lemma DivBelow(x: real, y: real, c: real)
    requires y > 0.0
    ensures x / y < c <==> x < c * y
  {
    var q := x / y;
    assert q * y == x;
  }

  /** A saving rate is positive exactly when there is income and less is spent than earned. */
  lemma SavingRatePositive(income: real, expense: real)
    ensures SavingRate(income, expense) > 0.0 <==> income > 0.0 && expense < income
  {
    if income > 0.0 {
      DivAbove(income - expense, income, 0.0);
    }
  }

  /** The spike test: with a positive previous expense, a rise of more than a fifth. */
  lemma SpikeThreshold(current: real, last: real)
    ensures current > last && ExpenseChangePercent(current, last) > 20.0
        <==> last > 0.0 && current - last > last / 5.0
  {
    if last > 0.0 {
      var q := (current - last) / last;
      DivAbove(current - last, last, 0.0);
      DivAbove(current - last, last, 0.2);
      assert ExpenseChangePercent(current, last) == Abs(q * 100.0);
    }
  }

  /** The stability test: within 15% of a positive previous expense, or any expense after a negative one. */
  lemma StableThreshold(current: real, last: real)
    ensures Stable(current, last) <==> last < 0.0 || (last > 0.0 && 100.0 * Abs(current - last) < 15.0 * last)
  {
    var d := Abs(current - last);
    if last > 0.0 {
      DivBelow(d, last, 0.15);
    } else if last < 0.0 {
      var q := d / last;
      assert q * last == d;
      assert q <= 0.0;
    }
  }

  /** The 30% share test, for each sign of the total. */
  lemma ShareThreshold(amount: real, total: real)
    ensures ExceedsShare(amount, total) <==>
      || (total == 0.0 && amount > 0.0)
      || (total > 0.0 && 10.0 * amount > 3.0 * total)
      || (total < 0.0 && 10.0 * amount < 3.0 * total)
  {
    if total > 0.0 {
      DivAbove(amount, total, 0.3);
    } else if total < 0.0 {
      assert amount / total == -amount / -total;
      DivAbove(-amount, -total, 0.3);
    }
  }

  // ---------------------------------------------------------------------
  // The messages are told apart by their tenth character

  /** A message whose tenth character is not the `q` of "quá" is no concentration warning. */
  lemma {:induction false} NotConcentration(w: string, top: seq<(string, real)>, total: real)
    requires |w| > 9 && w[9] != 'q'
    ensures w !in ConcentrationWarnings(top, total)
    decreases |top|
  {
    if top != [] {
      NotConcentration(w, top[..|top| - 1], total);
      var cat := top[|top| - 1].0;
      assert (ConcentrationPrefix + cat)[9] == 'q';
    }
  }

  /** The concentration warnings are the prefix followed by each top category above the share, and no more. */
  lemma {:induction false} ConcentrationWarningsAre(top: seq<(string, real)>, total: real, w: string)
    ensures w in ConcentrationWarnings(top, total) <==>
      exists k :: 0 <= k < |top| && ExceedsShare(top[k].1, total) && w == ConcentrationPrefix + top[k].0
    decreases |top|
  {
    if top != [] {
      var n := |top| - 1;
      var init := top[..n];
      ConcentrationWarningsAre(init, total, w);
      if w in ConcentrationWarnings(init, total) {
        var k :| 0 <= k < n && ExceedsShare(init[k].1, total) && w == ConcentrationPrefix + init[k].0;
        assert init[k] == top[k];
      }
      if exists k :: 0 <= k < |top| && ExceedsShare(top[k].1, total) && w == ConcentrationPrefix + top[k].0 {
        var k :| 0 <= k < |top| && ExceedsShare(top[k].1, total) && w == ConcentrationPrefix + top[k].0;
        if k < n {
          assert init[k] == top[k];
        }
      }
    }
  }

  /** There is at most one concentration warning per top category. */
  lemma {:induction false} ConcentrationCount(top: seq<(string, real)>, total: real)
    ensures |ConcentrationWarnings(top, total)| <= |top|
    decreases |top|
  {
    if top != [] {
      ConcentrationCount(top[..|top| - 1], total);
    }
  }

  // ---------------------------------------------------------------------
  // Sections 1 and 2: trend and saving rate

  /** The spike warning appears exactly when the expense rose by more than a fifth of a positive previous expense. */
  lemma SpikeRule(current: MonthHealth, last: MonthHealth, goalCount: nat)
    ensures SpikeWarning in InsightsOf(current, last, goalCount).0.warnings
        <==> last.totalExpense > 0.0 && current.totalExpense - last.totalExpense > last.totalExpense / 5.0
  {
    var top := Top(current.categoryBreakdown, 3, Value);
    NotConcentration(SpikeWarning, top, current.totalExpense);
    assert SpikeWarning != OverspendWarning by {
      assert SpikeWarning[9] != OverspendWarning[9];
    }
    SpikeThreshold(current.totalExpense, last.totalExpense);
  }

  /** An expense going from 1,000,000 to 1,300,000 (30% more) raises the spike warning. */
  lemma SpikeExample(current: MonthHealth, last: MonthHealth, goalCount: nat)
    requires last.totalExpense == 1000000.0 && current.totalExpense == 1300000.0
    ensures SpikeWarning in InsightsOf(current, last, goalCount).0.warnings
  {
    SpikeRule(current, last, goalCount);
  }

  /** The "controlled" message appears exactly when the expense did not rise. */
  lemma ControlledRule(current: MonthHealth, last: MonthHealth, goalCount: nat)
    ensures ControlledPositive in InsightsOf(current, last, goalCount).0.positive
        <==> current.totalExpense <= last.totalExpense
  {
    assert ControlledPositive != GoodSavingPositive by {
      assert ControlledPositive[0] != GoodSavingPositive[0];
    }
    assert ControlledPositive != StablePositive by {
      assert ControlledPositive[9] != StablePositive[9];
    }
  }

  /** The saving rate alone decides the overspending warning, the good-saving message and the low-saving suggestion. */
  lemma SavingRules(current: MonthHealth, last: MonthHealth, goalCount: nat)
    ensures var r := InsightsOf(current, last, goalCount).0;
      && (OverspendWarning in r.warnings <==> current.savingRate <= 0.0)
      && (GoodSavingPositive in r.positive <==> current.savingRate >= 20.0)
      && (LowSavingSuggestion in r.suggestions <==> 0.0 < current.savingRate < 10.0)
  {
    OverspendWarningRule(current, last, goalCount);
    GoodSavingRule(current, last, goalCount);
  }

  lemma OverspendWarningRule(current: MonthHealth, last: MonthHealth, goalCount: nat)
    ensures OverspendWarning in InsightsOf(current, last, goalCount).0.warnings <==> current.savingRate <= 0.0
  {
    var top := Top(current.categoryBreakdown, 3, Value);
    var tw := TrendWarnings(current.totalExpense, last.totalExpense);
    var sw := SavingWarnings(current.savingRate);
    var cw := ConcentrationWarnings(top, current.totalExpense);
    assert InsightsOf(current, last, goalCount).0.warnings == tw + sw + cw;
    NotConcentration(OverspendWarning, top, current.totalExpense);
    assert OverspendWarning !in tw by {
      assert SpikeWarning[9] != OverspendWarning[9];
    }
  }

  lemma GoodSavingRule(current: MonthHealth, last: MonthHealth, goalCount: nat)
    ensures GoodSavingPositive in InsightsOf(current, last, goalCount).0.positive <==> current.savingRate >= 20.0
  {
    var tp := TrendPositives(current.totalExpense, last.totalExpense);
    var sp := SavingPositives(current.savingRate);
    var st: seq<string> := if Stable(current.totalExpense, last.totalExpense) then [StablePositive] else [];
    assert InsightsOf(current, last, goalCount).0.positive == tp + sp + st;
    assert GoodSavingPositive !in tp by {
      assert ControlledPositive[0] != GoodSavingPositive[0];
    }
    assert GoodSavingPositive !in st by {
      assert GoodSavingPositive[0] != StablePositive[0];
    }
  }

  /** For a month of the ledger: the overspending warning appears exactly when there is no income or the expense reaches it. */
  lemma OverspendRule(all: seq<Transaction>, ym: YearMonth, last: MonthHealth, goalCount: nat)
    ensures var m := HealthOf(all, ym);
      (OverspendWarning in InsightsOf(m, last, goalCount).0.warnings
       <==> m.totalIncome <= 0.0 || m.totalExpense >= m.totalIncome)
  {
    var m := HealthOf(all, ym);
    SavingRules(m, last, goalCount);
    SavingRatePositive(m.totalIncome, m.totalExpense);
  }

  // ---------------------------------------------------------------------
  // Sections 3 and 4: categories and habits

  /** Two strings with the same prefix are equal exactly when the rests are. */
  lemma PrefixCancels(p: string, a: string, b: string)
    ensures p + a == p + b <==> a == b
  {
    if p + a == p + b {
      assert a == (p + a)[|p|..];
      assert b == (p + b)[|p|..];
    }
  }

  /** The warning for category `cat` is there exactly when a top category named `cat` is above the share. */
  lemma ConcentrationMember(top: seq<(string, real)>, total: real, cat: string)
    ensures ConcentrationPrefix + cat in ConcentrationWarnings(top, total)
        <==> exists k :: 0 <= k < |top| && ExceedsShare(top[k].1, total) && top[k].0 == cat
  {
    ConcentrationWarningsAre(top, total, ConcentrationPrefix + cat);
    forall k | 0 <= k < |top|
      ensures ConcentrationPrefix + cat == ConcentrationPrefix + top[k].0 <==> top[k].0 == cat
    {
      PrefixCancels(ConcentrationPrefix, cat, top[k].0);
    }
  }

  /**
   * At most three concentration warnings, one for each of the three largest
   * categories whose share of the expense is above 30%.
   */
  lemma ConcentrationRule(current: MonthHealth, last: MonthHealth, goalCount: nat, cat: string)
    ensures var top := Top(current.categoryBreakdown, 3, Value);
      && |ConcentrationWarnings(top, current.totalExpense)| <= 3
      && (ConcentrationPrefix + cat in InsightsOf(current, last, goalCount).0.warnings
          <==> exists k :: 0 <= k < |top| && ExceedsShare(top[k].1, current.totalExpense) && top[k].0 == cat)
  {
    var top := Top(current.categoryBreakdown, 3, Value);
    var total := current.totalExpense;
    var w := ConcentrationPrefix + cat;
    assert |top| <= 3 by {
      TopSelects(current.categoryBreakdown, 3, Value);
    }
    ConcentrationCount(top, total);
    ConcentrationMember(top, total, cat);
    assert w[9] == 'q';
    assert w != SpikeWarning && w != OverspendWarning by {
      assert SpikeWarning[9] != w[9];
      assert OverspendWarning[9] != w[9];
    }
  }

  /** The arithmetic of the daily spike: a maximum within the total but above three daily averages needs more than three days. */
  lemma SpikeNeedsMoreThanThree(m: real, total: real, n: real)
    requires n > 0.0 && m >= 0.0 && m <= total
    requires m > total / n * 3.0
    ensures n > 3.0
  {
    var avg := total / n;
    assert avg * n == total;
    assert avg * 3.0 < avg * n;
    assert avg >= 0.0;
    assert avg * (n - 3.0) > 0.0;
  }

  /** The daily-spike habit needs at least four expense days when no amount is negative. */
  lemma DaySpikeNeedsFourDays(byDay: seq<(int, real)>, total: real)
    requires forall k :: 0 <= k < |byDay| ==> byDay[k].1 >= 0.0
    requires SumOf(byDay, Value) == total
    requires DaySpike(byDay, total)
    ensures |byDay| >= 4
  {
    var m := MaxValue(byDay);
    var k :| 0 <= k < |byDay| && byDay[k].1 == m;
    assert m <= total by {
      ValueAtMostSum(byDay, k);
    }
    SpikeNeedsMoreThanThree(m, total, |byDay| as real);
  }

  /** For a month of the ledger with no negative amounts, the habit message needs four days with expenses. */
  lemma HabitNeedsFourDays(all: seq<Transaction>, ym: YearMonth, last: MonthHealth, goalCount: nat)
    requires forall i :: 0 <= i < |all| ==> Amount(all[i]) >= 0.0
    ensures var m := HealthOf(all, ym);
      DaySpikeHabit in InsightsOf(m, last, goalCount).0.habits ==> |m.expenseByDay| >= 4
  {
    var ts := InWindow(all, ym);
    var m := HealthOf(all, ym);
    assert forall i :: 0 <= i < |ts| ==> Amount(ts[i]) >= 0.0 by {
      forall i | 0 <= i < |ts| ensures Amount(ts[i]) >= 0.0 {
        assert ts[i] in all;
      }
    }
    BreakdownValuesNonNegative(ts);
    BreakdownsSumToExpense(ts);
    if DaySpike(m.expenseByDay, m.totalExpense) {
      DaySpikeNeedsFourDays(m.expenseByDay, m.totalExpense);
    }
  }

  /** The stable message appears exactly when the expense stayed within 15% of a positive previous expense, or followed a negative one. */
  lemma StableRule(current: MonthHealth, last: MonthHealth, goalCount: nat)
    ensures var c := current.totalExpense; var l := last.totalExpense;
      (StablePositive in InsightsOf(current, last, goalCount).0.positive
       <==> l < 0.0 || (l > 0.0 && 100.0 * Abs(c - l) < 15.0 * l))
  {
    assert StablePositive != ControlledPositive by {
      assert ControlledPositive[9] != StablePositive[9];
    }
    assert StablePositive != GoodSavingPositive by {
      assert GoodSavingPositive[0] != StablePositive[0];
    }
    StableThreshold(current.totalExpense, last.totalExpense);
  }

  // ---------------------------------------------------------------------
  // Section 5: advice

  /** The advice a list of warnings adds: cutting spending exactly for the overspending warning, and only the three warning advices. */
  lemma {:induction false} AdviceForAllIs(ws: seq<string>, a: string)
    ensures a in AdviceForAll(ws) ==> a == CutSpendingAdvice || a == MoreIncomeAdvice || a == LargestCategoriesAdvice
    ensures CutSpendingAdvice in AdviceForAll(ws) <==> OverspendWarning in ws
    decreases |ws|
  {
    assert |CutSpendingAdvice| == 41 && |MoreIncomeAdvice| == 34 && |LargestCategoriesAdvice| == 32;
    if ws != [] {
      var init := ws[..|ws| - 1];
      AdviceForAllIs(init, a);
      assert ws == init + [ws[|ws| - 1]];
    }
  }

  /** Some warning other than overspending that mentions "Chi tiêu quá nhiều" brings the advice on the largest categories, and only such a warning does. */
  lemma {:induction false} LargestAdviceFrom(ws: seq<string>)
    ensures LargestCategoriesAdvice in AdviceForAll(ws)
        <==> exists i :: 0 <= i < |ws| && ws[i] != OverspendWarning && Contains(ws[i], ConcentrationMarker)
    decreases |ws|
  {
    assert |CutSpendingAdvice| == 41 && |MoreIncomeAdvice| == 34 && |LargestCategoriesAdvice| == 32;
    if ws != [] {
      var n := |ws| - 1;
      var init := ws[..n];
      LargestAdviceFrom(init);
      if exists i :: 0 <= i < n && init[i] != OverspendWarning && Contains(init[i], ConcentrationMarker) {
        var i :| 0 <= i < n && init[i] != OverspendWarning && Contains(init[i], ConcentrationMarker);
        assert ws[i] == init[i];
      }
      if exists i :: 0 <= i < |ws| && ws[i] != OverspendWarning && Contains(ws[i], ConcentrationMarker) {
        var i :| 0 <= i < |ws| && ws[i] != OverspendWarning && Contains(ws[i], ConcentrationMarker);
        if i < n {
          assert ws[i] == init[i];
        }
      }
    }
  }

  /**
   * The advice always ends with daily tracking; it asks for a saving target
   * exactly when the rate is positive and below 20%, for a goal exactly when
   * there is none, and to cut spending exactly when a warning says spending
   * exceeds income.
   */
  lemma AdviceRules(warnings: seq<string>, rate: real, goalCount: nat)
    ensures var advice := AdviceOf(warnings, rate, goalCount);
      && advice != [] && advice[|advice| - 1] == DailyTrackingAdvice
      && (SavingTargetAdvice in advice <==> 0.0 < rate < 20.0)
      && (CreateGoalAdvice in advice <==> goalCount == 0)
      && (CutSpendingAdvice in advice <==> OverspendWarning in warnings)
  {
    AdviceForAllIs(warnings, SavingTargetAdvice);
    AdviceForAllIs(warnings, CreateGoalAdvice);
    assert |SavingTargetAdvice| == 44 && |CreateGoalAdvice| == 47 && |DailyTrackingAdvice| == 48;
    assert |CutSpendingAdvice| == 41 && |MoreIncomeAdvice| == 34 && |LargestCategoriesAdvice| == 32;
  }

  /** In the whole advice, the advice on the largest categories comes only from the warnings. */
  lemma LargestAdviceOf(warnings: seq<string>, rate: real, goalCount: nat)
    ensures LargestCategoriesAdvice in AdviceOf(warnings, rate, goalCount)
        <==> exists i :: 0 <= i < |warnings| && warnings[i] != OverspendWarning && Contains(warnings[i], ConcentrationMarker)
  {
    assert |SavingTargetAdvice| == 44 && |CreateGoalAdvice| == 47 && |DailyTrackingAdvice| == 48;
    assert |LargestCategoriesAdvice| == 32;
    LargestAdviceFrom(warnings);
  }

  /** Each concentration warning mentions "Chi tiêu quá nhiều", is not the overspending warning, and comes from a category above the share. */
  lemma ConcentrationMentions(top: seq<(string, real)>, total: real, w: string)
    requires w in ConcentrationWarnings(top, total)
    ensures w != OverspendWarning && Contains(w, ConcentrationMarker)
    ensures exists k :: 0 <= k < |top| && ExceedsShare(top[k].1, total)
  {
    ConcentrationWarningsAre(top, total, w);
    assert HasAt(w, 0, ConcentrationMarker);
    assert w[9] != OverspendWarning[9];
  }

  /** The trend and saving warnings other than overspending do not mention "Chi tiêu quá nhiều". */
  lemma TrendAndSavingDoNotMention(current: real, last: real, rate: real)
    ensures var tw := TrendWarnings(current, last) + SavingWarnings(rate);
      forall j :: 0 <= j < |tw| ==> tw[j] == OverspendWarning || !Contains(tw[j], ConcentrationMarker)
  {
    NotContainsByChar(SpikeWarning, ConcentrationMarker, 9);
  }

  /** Ahead of the concentration warnings, warnings that do not mention "Chi tiêu quá nhiều" leave the mention to a category above the share. */
  lemma MentionIffAboveShare(tw: seq<string>, top: seq<(string, real)>, total: real)
    requires forall j :: 0 <= j < |tw| ==> tw[j] == OverspendWarning || !Contains(tw[j], ConcentrationMarker)
    ensures var ws := tw + ConcentrationWarnings(top, total);
      ((exists i :: 0 <= i < |ws| && ws[i] != OverspendWarning && Contains(ws[i], ConcentrationMarker))
       <==> exists k :: 0 <= k < |top| && ExceedsShare(top[k].1, total))
  {
    var cw := ConcentrationWarnings(top, total);
    var ws := tw + cw;
    assert forall j :: 0 <= j < |tw| ==> ws[j] == tw[j];
    forall i | 0 <= i < |ws| && ws[i] != OverspendWarning && Contains(ws[i], ConcentrationMarker)
      ensures exists k :: 0 <= k < |top| && ExceedsShare(top[k].1, total)
    {
      assert ws[i] == cw[i - |tw|];
      ConcentrationMentions(top, total, ws[i]);
    }
    if exists k :: 0 <= k < |top| && ExceedsShare(top[k].1, total) {
      var k :| 0 <= k < |top| && ExceedsShare(top[k].1, total);
      var w := ConcentrationPrefix + top[k].0;
      ConcentrationWarningsAre(top, total, w);
      ConcentrationMentions(top, total, w);
      var j :| 0 <= j < |cw| && cw[j] == w;
      assert ws[|tw| + j] == w;
    }
  }

  /** The advice on the largest categories appears exactly when some top category is above the 30% share. */
  lemma LargestAdviceRule(current: MonthHealth, last: MonthHealth, goalCount: nat)
    ensures var top := Top(current.categoryBreakdown, 3, Value);
      (LargestCategoriesAdvice in InsightsOf(current, last, goalCount).1
       <==> exists k :: 0 <= k < |top| && ExceedsShare(top[k].1, current.totalExpense))
  {
    var top := Top(current.categoryBreakdown, 3, Value);
    var total := current.totalExpense;
    var ws := InsightsOf(current, last, goalCount).0.warnings;
    var tw := TrendWarnings(total, last.totalExpense) + SavingWarnings(current.savingRate);
    assert ws == tw + ConcentrationWarnings(top, total);
    assert InsightsOf(current, last, goalCount).1 == AdviceOf(ws, current.savingRate, goalCount);
    LargestAdviceOf(ws, current.savingRate, goalCount);
    TrendAndSavingDoNotMention(total, last.totalExpense, current.savingRate);
    MentionIffAboveShare(tw, top, total);
  }
}
