/** The analytics hook: one deterministic function of the expense, budget
    and category lists. An empty expense list short-circuits to zeroed
    analytics; otherwise the totals, the budget merge for the latest month
    and the four insights are computed and assembled into one record. */
module ExpenseAnalytics {
  import opened Dict
  import opened Calendar
  import opened Aggregation
  import opened Budgets
  import opened Insights

  /** The record the hook returns; a null insight is None. */
  datatype Analytics = Analytics(
    totalAmount: real,
    byCategory: Dict<real>,
    byMonth: Dict<real>,
    budgetByCategory: Dict<BudgetStatus>,
    insight: Option<MonthOverMonth>,
    topCategoryInsight: Option<TopCategory>,
    budgetSummaryInsight: Option<BudgetSummary>,
    categoryTrendInsight: Option<CategoryTrend>)

  /** The guard's `emptyByCategory`: every category name mapped to 0. */
  function EmptyByCategory(cats: seq<Category>): Dict<real>
  {
    if |cats| == 0 then []
    else Put(EmptyByCategory(cats[..|cats| - 1]), cats[|cats| - 1].name, 0.0)
  }

  /** The guard's zero-filled object is what the category totals would be
      with no expenses at all. */
  lemma {:induction false} EmptyByCategoryAgrees(cats: seq<Category>)
    ensures EmptyByCategory(cats) == ByCategory(cats, [])
  {
    if |cats| > 0 {
      EmptyByCategoryAgrees(cats[..|cats| - 1]);
      assert CategoryTotal([], cats[|cats| - 1].name) == 0.0;
    }
  }

  /** `currentMonth`: the label of the last entry of `sortedMonths`, which
      is the label of the latest month with spending. */
  function CurrentMonth(es: seq<Expense>): (monthLabel: string)
    requires |es| > 0
    ensures monthLabel == Label(CurrentMonthKey(es))
    ensures ParseLabel(monthLabel) == Some(CurrentMonthKey(es))
  {
    SortedMonthsLabels(es);
    var r := SortedMonths(es);
    LabelRoundTrip(r[|r| - 1].key);
    r[|r| - 1].monthLabel
  }

  /** The period keys budgets are matched against: the current month's
      label, its quarter key and its year part. */
  function PeriodOf(currentMonth: string): CurrentPeriod
    requires ParseLabel(currentMonth).Some?
  {
    CurrentPeriod(currentMonth, GetQuarter(currentMonth), YearPart(currentMonth))
  }

  /** The period keys of a month, stated on the month itself. */
  function PeriodOfMonth(k: MonthKey): CurrentPeriod
  {
    CurrentPeriod(Label(k), QuarterKey(k), NatToString(k.year))
  }

  /** Insight 1 over `sortedMonths` and `byMonth`. */
  function MonthOverMonthOf(es: seq<Expense>): Option<MonthOverMonth>
  {
    SortedMonthsLabels(es);
    MonthOverMonthInsight(SortedMonths(es), ByMonth(es))
  }

  /** The month-over-month insight compares the last two entries of
      `sortedMonths` by their `byMonth` totals. */
  lemma {:induction false} MonthOverMonthOfSorted(es: seq<Expense>)
    requires !SingleMonth(es)
    ensures var r := SortedMonths(es);
            |r| >= 2 &&
            Compares(MonthOverMonthOf(es), r[|r| - 1].monthLabel, r[|r| - 2].monthLabel,
                     MonthTotal(es, r[|r| - 1].monthLabel), MonthTotal(es, r[|r| - 2].monthLabel))
  {
    var r := LastTwoMonths(es);
    var last, prev := r[|r| - 1].monthLabel, r[|r| - 2].monthLabel;
    var byMonth := ByMonth(es);
    SortedMonthsLabels(es);
    var m := MonthOverMonthInsight(r, byMonth);
    assert Compares(m, last, prev, GetOr(byMonth, last, 0.0), GetOr(byMonth, prev, 0.0));
    ByMonthGetOr(es, last);
    ByMonthGetOr(es, prev);
    assert MonthOverMonthOf(es) == m;
  }

  /** With spending in two or more months, the month-over-month insight
      compares the latest month with the latest one before it. */
  lemma {:induction false} MonthOverMonthOfSpec(es: seq<Expense>)
    requires !SingleMonth(es)
    ensures Compares(MonthOverMonthOf(es), Label(CurrentMonthKey(es)), Label(PreviousMonthKey(es)),
                     MonthTotal(es, Label(CurrentMonthKey(es))), MonthTotal(es, Label(PreviousMonthKey(es))))
  {
    MonthOverMonthOfSorted(es);
    LastTwoLabels(es);
  }

  /** The hook's result for the given expenses, budgets and categories. */
  function Analyze(expenses: seq<Expense>, budgets: seq<Budget>, categories: seq<Category>): Analytics
  {
    if |expenses| == 0 then
      Analytics(0.0, EmptyByCategory(categories), [], [], None, None, None, None)
    else
      var byCategory := ByCategory(categories, expenses);
      var byMonth := ByMonth(expenses);
      var months := Keys(byMonth);
      var currentMonth := CurrentMonth(expenses);
      var budgetByCategory := BudgetByCategory(byCategory, budgets, PeriodOf(currentMonth));
      Analytics(
        Total(expenses),
        byCategory,
        byMonth,
        budgetByCategory,
        MonthOverMonthOf(expenses),
        TopCategoryInsight(expenses, currentMonth),
        BudgetSummaryInsight(budgetByCategory, currentMonth),
        CategoryTrendInsight(expenses, months))
  }

  /** The guard's fill: a loop over the categories that stores 0 under each
      name. */
  method FillEmptyByCategory(categories: seq<Category>) returns (emptyByCategory: Dict<real>)
    ensures emptyByCategory == EmptyByCategory(categories)
  {
    emptyByCategory := [];
    for i := 0 to |categories|
      invariant emptyByCategory == EmptyByCategory(categories[..i])
    {
      assert categories[..i + 1][..i] == categories[..i];
      emptyByCategory := Put(emptyByCategory, categories[i].name, 0.0);
    }
    assert categories[..|categories|] == categories;
  }

  /** The hook as the source runs it: the in-place fills and the trend loop
      as loops, the rest as expressions. */
  method UseExpenseAnalytics(expenses: seq<Expense>, budgets: seq<Budget>, categories: seq<Category>)
    returns (analytics: Analytics)
    ensures analytics == Analyze(expenses, budgets, categories)
  {
    if |expenses| == 0 {
      var emptyByCategory := FillEmptyByCategory(categories);
      return Analytics(0.0, emptyByCategory, [], [], None, None, None, None);
    }
    var totalAmount := Total(expenses);
    var byCategory := FillByCategory(categories, expenses);
    var byMonth := GroupTotals(Keyed(expenses, ByMonthLabel));
    var months := Keys(byMonth);
    var currentMonth := CurrentMonth(expenses);
    var budgetByCategory := FillBudgetByCategory(byCategory, budgets, PeriodOf(currentMonth));
    var insight := MonthOverMonthOf(expenses);
    var topCategoryInsight := TopCategoryInsight(expenses, currentMonth);
    var budgetSummaryInsight := BudgetSummaryInsight(budgetByCategory, currentMonth);
    var categoryTrendInsight := FindCategoryTrend(expenses, months);
    analytics := Analytics(totalAmount, byCategory, byMonth, budgetByCategory,
                           insight, topCategoryInsight, budgetSummaryInsight, categoryTrendInsight);
  }

  // ---------------------------------------------------------------------
  // Properties of the whole record
  // ---------------------------------------------------------------------

  /** An empty expense list yields a zero total, every category name mapped
      to 0, no month totals, no budget statuses and no insights. */
  lemma {:induction false} AnalyzeEmpty(budgets: seq<Budget>, categories: seq<Category>)
    ensures Analyze([], budgets, categories).totalAmount == 0.0
    ensures Keys(Analyze([], budgets, categories).byCategory) == Dedup(Names(categories))
    ensures forall k :: k in Names(categories) ==> Get(Analyze([], budgets, categories).byCategory, k) == Some(0.0)
    ensures Analyze([], budgets, categories).byMonth == []
    ensures Analyze([], budgets, categories).budgetByCategory == []
    ensures Analyze([], budgets, categories).insight.None?
    ensures Analyze([], budgets, categories).topCategoryInsight.None?
    ensures Analyze([], budgets, categories).budgetSummaryInsight.None?
    ensures Analyze([], budgets, categories).categoryTrendInsight.None?
  {
    EmptyByCategoryAgrees(categories);
    ByCategorySpec(categories, []);
    forall k | k in Names(categories)
      ensures Get(Analyze([], budgets, categories).byCategory, k) == Some(0.0)
    {
      assert CategoryTotal([], k) == 0.0;
    }
  }

  /** `byCategory` has exactly the category names as keys, each holding the
      amount of the expenses filed under exactly that name; when every
      expense's category is a known one, these add up to the total. */
  lemma {:induction false} AnalyzeByCategory(expenses: seq<Expense>, budgets: seq<Budget>, categories: seq<Category>)
    ensures Keys(Analyze(expenses, budgets, categories).byCategory) == Dedup(Names(categories))
    ensures forall k :: Get(Analyze(expenses, budgets, categories).byCategory, k) ==
                        if k in Names(categories) then Some(CategoryTotal(expenses, k)) else None
    ensures (forall i :: 0 <= i < |expenses| ==> expenses[i].category in Names(categories)) ==>
              SumValues(Analyze(expenses, budgets, categories).byCategory) == Analyze(expenses, budgets, categories).totalAmount
  {
    EmptyByCategoryAgrees(categories);
    ByCategorySpec(categories, expenses);
    if forall i :: 0 <= i < |expenses| ==> expenses[i].category in Names(categories) {
      CategoryTotalsCoverTotal(categories, expenses);
    }
  }

  /** `totalAmount` is the sum of all amounts; `byMonth` has a key exactly
      for each month with an expense, holding that month's amount, and its
      values add up to `totalAmount`. */
  lemma {:induction false} AnalyzeTotals(expenses: seq<Expense>, budgets: seq<Budget>, categories: seq<Category>)
    ensures Analyze(expenses, budgets, categories).totalAmount == Total(expenses)
    ensures SumValues(Analyze(expenses, budgets, categories).byMonth) == Analyze(expenses, budgets, categories).totalAmount
    ensures forall l :: l in Keys(Analyze(expenses, budgets, categories).byMonth) <==>
                        exists i :: 0 <= i < |expenses| && MonthLabelOf(expenses[i]) == l
    ensures forall i :: 0 <= i < |expenses| ==>
              Get(Analyze(expenses, budgets, categories).byMonth, MonthLabelOf(expenses[i])) ==
              Some(MonthTotal(expenses, MonthLabelOf(expenses[i])))
  {
    ByMonthSpec(expenses);
    forall i | 0 <= i < |expenses|
      ensures MonthLabelOf(expenses[i]) in Keys(ByMonth(expenses))
    {
    }
  }

  /** The budget merge uses the period of the latest month with spending:
      its label, its `Q{q}-YYYY` key and its year. `budgetByCategory` holds
      an entry for exactly the categories with a monthly, quarterly or
      yearly budget for that period, resolved in that order of precedence,
      and every entry's arithmetic is consistent. */
  lemma {:induction false} AnalyzeBudgets(expenses: seq<Expense>, budgets: seq<Budget>, categories: seq<Category>)
    requires |expenses| > 0
    ensures forall i :: 0 <= i < |expenses| ==> Ordinal(MonthOf(expenses[i].date)) <= Ordinal(CurrentMonthKey(expenses))
    ensures exists i :: 0 <= i < |expenses| && MonthOf(expenses[i].date) == CurrentMonthKey(expenses)
    ensures Keys(Analyze(expenses, budgets, categories).budgetByCategory) ==
            WithBudget(Dedup(Names(categories)), budgets, PeriodOfMonth(CurrentMonthKey(expenses)))
    ensures forall c :: Get(Analyze(expenses, budgets, categories).budgetByCategory, c) ==
                        Resolve(ByCategory(categories, expenses), budgets, PeriodOfMonth(CurrentMonthKey(expenses)), c)
    ensures forall i :: 0 <= i < |Analyze(expenses, budgets, categories).budgetByCategory| ==>
              Consistent(Analyze(expenses, budgets, categories).budgetByCategory[i].1)
  {
    var k := CurrentMonthKey(expenses);
    LatestMonth(expenses);
    PeriodKeysOfLabel(k);
    assert PeriodOf(CurrentMonth(expenses)) == PeriodOfMonth(k);
    var byCategory := ByCategory(categories, expenses);
    ByCategorySpec(categories, expenses);
    BudgetByCategorySpec(byCategory, budgets, PeriodOfMonth(k));
    BudgetByCategoryConsistent(byCategory, budgets, PeriodOfMonth(k));
  }

  /** With all spending in one month there is neither a month-over-month
      nor a category-trend insight. */
  lemma {:induction false} AnalyzeSingleMonth(expenses: seq<Expense>, budgets: seq<Budget>, categories: seq<Category>)
    requires SingleMonth(expenses)
    ensures Analyze(expenses, budgets, categories).insight.None?
    ensures Analyze(expenses, budgets, categories).categoryTrendInsight.None?
  {
    TwoMonths(expenses);
  }

  /** With spending in two or more months, the month-over-month insight
      compares the latest month with the latest one before it; it is
      present exactly when that earlier month's total is positive, says
      "more" exactly when the latest total is larger, and its percent is
      the relative change of the two totals. */
  lemma {:induction false} AnalyzeMonthOverMonth(expenses: seq<Expense>, budgets: seq<Budget>, categories: seq<Category>)
    requires !SingleMonth(expenses)
    ensures Ordinal(PreviousMonthKey(expenses)) < Ordinal(CurrentMonthKey(expenses))
    ensures forall i :: 0 <= i < |expenses| && Ordinal(MonthOf(expenses[i].date)) < Ordinal(CurrentMonthKey(expenses)) ==>
              Ordinal(MonthOf(expenses[i].date)) <= Ordinal(PreviousMonthKey(expenses))
    ensures Compares(Analyze(expenses, budgets, categories).insight,
                     Label(CurrentMonthKey(expenses)), Label(PreviousMonthKey(expenses)),
                     MonthTotal(expenses, Label(CurrentMonthKey(expenses))),
                     MonthTotal(expenses, Label(PreviousMonthKey(expenses))))
  {
    PreviousMonthIsLatestBefore(expenses);
    MonthOverMonthOfSpec(expenses);
  }

  /** With any spending, the top-category insight is present: it names the
      current month, a category spent in it and that category's total in
      it, no category spent more that month, and ties go to the category
      that appears first that month. */
  lemma {:induction false} AnalyzeTopCategory(expenses: seq<Expense>, budgets: seq<Budget>, categories: seq<Category>)
    requires |expenses| > 0
    ensures Analyze(expenses, budgets, categories).topCategoryInsight.Some?
    ensures Analyze(expenses, budgets, categories).topCategoryInsight ==
            TopCategoryInsight(expenses, Label(CurrentMonthKey(expenses)))
    ensures Analyze(expenses, budgets, categories).topCategoryInsight.value.month == Label(CurrentMonthKey(expenses))
  {
    LatestMonth(expenses);
    var t :| 0 <= t < |expenses| && MonthOf(expenses[t].date) == CurrentMonthKey(expenses);
    TopCategoryPresent(expenses, Label(CurrentMonthKey(expenses)));
    assert MonthLabelOf(expenses[t]) == Label(CurrentMonthKey(expenses));
  }

  /** The budget summary lists, for the current month, exactly the entries
      of `budgetByCategory` over a monthly budget, each with the amount by
      which spending exceeds the limit; it is absent when there is none. */
  lemma {:induction false} AnalyzeBudgetSummary(expenses: seq<Expense>, budgets: seq<Budget>, categories: seq<Category>)
    requires |expenses| > 0
    ensures Analyze(expenses, budgets, categories).budgetSummaryInsight.None? <==>
            forall i :: 0 <= i < |Analyze(expenses, budgets, categories).budgetByCategory| ==>
              !OverMonthlyBudget(Analyze(expenses, budgets, categories).budgetByCategory[i].1)
    ensures Analyze(expenses, budgets, categories).budgetSummaryInsight.Some? ==>
              Analyze(expenses, budgets, categories).budgetSummaryInsight.value.month == Label(CurrentMonthKey(expenses))
    ensures Analyze(expenses, budgets, categories).budgetSummaryInsight.Some? ==>
              forall o :: o in Analyze(expenses, budgets, categories).budgetSummaryInsight.value.overages <==>
                exists i :: 0 <= i < |Analyze(expenses, budgets, categories).budgetByCategory| &&
                            OverMonthlyBudget(Analyze(expenses, budgets, categories).budgetByCategory[i].1) &&
                            o == Overage(Analyze(expenses, budgets, categories).budgetByCategory[i].0,
                                         Analyze(expenses, budgets, categories).budgetByCategory[i].1.spent -
                                         Analyze(expenses, budgets, categories).budgetByCategory[i].1.limit)
  {
    AnalyzeBudgets(expenses, budgets, categories);
    var d := Analyze(expenses, budgets, categories).budgetByCategory;
    forall i | 0 <= i < |d| && OverMonthlyBudget(d[i].1)
      ensures Abs(d[i].1.remaining) == d[i].1.spent - d[i].1.limit
    {
      assert Consistent(d[i].1);
    }
  }

  /** The category trend compares the last two months in order of first
      appearance among the expenses, which need not be the two latest. */
  lemma {:induction false} AnalyzeCategoryTrend(expenses: seq<Expense>, budgets: seq<Budget>, categories: seq<Category>)
    ensures Analyze(expenses, budgets, categories).categoryTrendInsight ==
            CategoryTrendInsight(expenses, Dedup(KeysOf(expenses, ByMonthLabel)))
  {
    GroupSumKeys(expenses, ByMonthLabel);
  }
}
