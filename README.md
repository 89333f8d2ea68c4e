# Expense analytics, modelled in Dafny

This project models `useExpenseAnalytics`, the analytics engine of an
expense-tracking application. It takes three lists and returns one record:

- the lists: expenses (amount, category name, date), budgets (category,
  limit, period type, period key) and categories (name);
- the record: the total spent, the per-category totals, the per-month
  totals, the budget status of each category, and four insights
  (month over month, top category of the current month, monthly
  over-budget summary, category trend).

The model follows the code branch by branch:

- `Analyze` is the whole hook as one function.
- `UseExpenseAnalytics` is the hook as the code runs it. Its in-place
  fills are loops proved equal to their specification functions:
  - the zero-filled `emptyByCategory`,
  - the `byCategory` fill,
  - the `byMonth` reduce,
  - the `budgetByCategory` fill,
  - the trend loop over `biggestChange`.
- JavaScript plain objects are `Dict`s: sequences of (key, value) entries
  kept in insertion order. Assigning to a present key overwrites it in
  place; assigning to a new key appends it.
- Month keys are `"Mon YYYY"` labels. The model writes out both the label
  format and the parsing back into a month, and proves them inverse.

The modules:

- `Dict` — objects, reads, assignment, sums of values.
- `Calendar` — months, labels, quarter and year keys.
- `Aggregation` — the total, `byCategory`, `byMonth`, `sortedMonths`,
  the current and previous month.
- `Budgets` — budget lookup, precedence, status.
- `Insights` — the four insights.
- `ExpenseAnalytics` — the hook and properties of its whole record.

Facts about the code that shape the model:

- **Category trend months.** The trend compares the last two keys of
  `byMonth` in order of first appearance among the expenses (lines
  229-231). These are not necessarily the two latest months.
  `ExpenseAnalytics.AnalyzeCategoryTrend` states this. The month-over-month
  insight does sort chronologically.
- **Ties in the top category.** The code keeps the category met first,
  because it replaces the running maximum only on a strictly larger amount.
- **Weekly budgets.** A budget may carry the weekly period type, but the
  lookup only ever asks for monthly, quarterly and yearly keys, so a weekly
  budget never applies.
- **Zero changes.** A change of exactly zero reads as "less" in the
  month-over-month insight and as "decreased" in the category trend.

## Model

| member | source | states |
|---|---|---|
| `Calendar.OrdinalChronological` | src/hooks/useExpenseAnalytics.js:67-75 | comparing month ordinals is comparing (year, month) chronologically, and equal ordinals are equal months; this is the first-of-month date order the sort uses |
| `Calendar.MonthNameRoundTrip` | src/hooks/useExpenseAnalytics.js:69-72 | reading a short month name back gives the month that printed it |
| `Calendar.FindMonth` | src/hooks/useExpenseAnalytics.js:69-72 | the month-name lookup finds the first month with that name, and finds none exactly when no month has it |
| `Calendar.NatToStringRoundTrip` | src/hooks/useExpenseAnalytics.js:69-72 | reading a printed year back gives the year |
| `Calendar.NatToStringInjective` | src/hooks/useExpenseAnalytics.js:54-57 | distinct years print as distinct numerals |
| `Calendar.SplitAtSpace` | src/hooks/useExpenseAnalytics.js:69 | splitting `name + " " + rest` at spaces cuts at that space when the name has none |
| `Calendar.LabelRoundTrip` | src/hooks/useExpenseAnalytics.js:53-72 | month label generation and label parsing are inverses, and a label splits into the month name and the year |
| `Calendar.LabelInjective` | src/hooks/useExpenseAnalytics.js:53-60 | distinct months have distinct labels, so the month reduce merges exactly the expenses of one calendar month |
| `Calendar.QuarterOf` | src/hooks/useExpenseAnalytics.js:89 | the quarter is between 1 and 4 and is the one whose three months contain the month |
| `Calendar.PeriodKeysOfLabel` | src/hooks/useExpenseAnalytics.js:82-94 | the year key and the quarter key read off a generated label are the month's own year and `Q{q}-{year}` |
| `Calendar.QuarterKeyDistinct` | src/hooks/useExpenseAnalytics.js:86-91 | two months share a quarter key exactly when they share year and quarter |
| `Dict.GetSome` | src/hooks/useExpenseAnalytics.js:155-156 | reading an object gives a value exactly for its keys |
| `Dict.PutSpec` | src/hooks/useExpenseAnalytics.js:59-60 | after an assignment the key reads the new value, every other key reads as before, a new key goes last, an existing key keeps its place, and keys stay distinct |
| `Dict.SumValuesAdd` | src/hooks/useExpenseAnalytics.js:59-60 | adding an amount to a key's running total (0 when absent) adds that amount to the sum of all values |
| `Aggregation.GroupSumSpec` | src/hooks/useExpenseAnalytics.js:52-63 | the grouping reduce has one key per distinct key of the expenses, in order of first appearance; each key holds the amount summed over the expenses with that key; the values add up to the total |
| `Aggregation.GroupTotals` | src/hooks/useExpenseAnalytics.js:52-63 | the reduce loop with its mutated accumulator computes exactly the grouping reduce |
| `Aggregation.ByCategorySpec` | src/hooks/useExpenseAnalytics.js:39-47 | `byCategory` has exactly the category names as keys, including categories with no expenses; each holds the amount of the expenses whose category matches that name exactly |
| `Aggregation.FillByCategory` | src/hooks/useExpenseAnalytics.js:39-47 | the forEach fill computes exactly `byCategory` |
| `Aggregation.CategoryTotalsCoverTotal` | src/hooks/useExpenseAnalytics.js:31-47 | when every expense names a listed category, the category totals add up to `totalAmount` |
| `Aggregation.ByMonthSpec` | src/hooks/useExpenseAnalytics.js:52-63 | `byMonth` has a key exactly for each month with an expense, holds that month's amount and adds up to the total |
| `Aggregation.SortByDate` | src/hooks/useExpenseAnalytics.js:75 | the sort result is in ascending date order and is a permutation of its input |
| `Aggregation.SortedMonthsSpec` | src/hooks/useExpenseAnalytics.js:65-75 | `sortedMonths` is ascending, has one entry per key of `byMonth`, each entry carries its own label, and every expense's month has its entry |
| `Aggregation.SortedMonthsStrict` | src/hooks/useExpenseAnalytics.js:65-75 | `sortedMonths` is strictly ascending: no month appears twice |
| `Aggregation.LatestMonth` | src/hooks/useExpenseAnalytics.js:77-80 | with any expense, the month of `currentMonth` is the latest month of any expense, and some expense falls in it |
| `Aggregation.TwoMonths` | src/hooks/useExpenseAnalytics.js:149-151 | `byMonth` has two or more keys exactly when the expenses span two or more calendar months |
| `Aggregation.PreviousMonthIsLatestBefore` | src/hooks/useExpenseAnalytics.js:151-153 | the entry before the last of `sortedMonths` is earlier than the current month, has an expense, and no expense falls strictly between the two |
| `Budgets.FindBudget` | src/hooks/useExpenseAnalytics.js:103-108 | the lookup finds nothing exactly when no budget matches category, period type and key; otherwise it returns the first matching budget in list order |
| `Budgets.EffectiveBudget` | src/hooks/useExpenseAnalytics.js:103-127 | the applicable budget is monthly exactly when a monthly one matches; quarterly exactly when no monthly but a quarterly one matches; yearly exactly when only a yearly one matches; none otherwise |
| `Budgets.Status` | src/hooks/useExpenseAnalytics.js:129-143 | the status keeps the limit, the spending and the source; remaining plus spent is the limit; over budget means spent above the limit; the percentage is 0 for a non-positive limit, capped at 100, and otherwise exactly the share spent |
| `Budgets.RatioBounds` | src/hooks/useExpenseAnalytics.js:131-134 | against a positive limit, the percentage times the limit is the spending times 100; it is non-negative for non-negative spending, and below 100 exactly when spending is below the limit |
| `Budgets.BudgetByCategorySpec` | src/hooks/useExpenseAnalytics.js:99-144 | `budgetByCategory` has an entry exactly for the categories of `byCategory` with an applicable budget, in that order; each holds the status against the winning budget |
| `Budgets.BudgetByCategoryConsistent` | src/hooks/useExpenseAnalytics.js:129-143 | every entry's remaining and spent add up to its limit, its flag is the strict comparison, and its source is monthly, quarterly or yearly |
| `Budgets.FillBudgetByCategory` | src/hooks/useExpenseAnalytics.js:99-144 | the forEach fill computes exactly `budgetByCategory` |
| `Insights.MonthOverMonthInsight` | src/hooks/useExpenseAnalytics.js:149-166 | with fewer than two months there is no insight; otherwise there is one exactly when the earlier total is positive; it names the two months, says "more" exactly when the later total is larger, and its percent times the earlier total is 100 times the absolute change |
| `Insights.InMonth` | src/hooks/useExpenseAnalytics.js:174-182 | the filter keeps exactly the expenses whose month label is the given month |
| `Insights.InMonthCounts` | src/hooks/useExpenseAnalytics.js:174-182 | the filter keeps each expense of the month exactly as many times as it occurs, and none of any other month |
| `Insights.MonthPositions` | src/hooks/useExpenseAnalytics.js:174-182 | the positions of the expenses dated in the month: all of them, each once, in increasing order |
| `Insights.InMonthOrder` | src/hooks/useExpenseAnalytics.js:174-182 | the filter is the expense list read at exactly those positions, in increasing order, so it keeps the original order even when a record repeats |
| `Insights.InMonthCategoryTotal` | src/hooks/useExpenseAnalytics.js:174-189 | a category's total over the filtered month equals the sum, over all expenses, of those in that month and that category |
| `Insights.TopIndex` | src/hooks/useExpenseAnalytics.js:191-194 | the max-reduce picks a largest value, and every earlier entry is strictly smaller |
| `Insights.MonthCategoryAmount` | src/hooks/useExpenseAnalytics.js:185-189 | the month's per-category reduce holds each category's total within the month, and has a key exactly for the categories spent that month |
| `Insights.TopCategoryPresent` | src/hooks/useExpenseAnalytics.js:173-198 | the top-category insight is absent exactly when no expense falls in the month |
| `Insights.TopCategoryIsLargest` | src/hooks/useExpenseAnalytics.js:184-196 | the insight names the month and a category spent in it, with that category's total in the month; no category spent more that month |
| `Insights.TopCategoryFirstOnTies` | src/hooks/useExpenseAnalytics.js:191-194 | every category before the winner in the month's totals spent strictly less, so ties go to the category met first |
| `Insights.OverMonthly` | src/hooks/useExpenseAnalytics.js:205-216 | the overages are exactly the entries over budget against a monthly budget, each with its category and its absolute remaining |
| `Insights.OverMonthlyCount` | src/hooks/useExpenseAnalytics.js:205-216 | there is one overage per entry over a monthly budget |
| `Insights.OverMonthlyOrder` | src/hooks/useExpenseAnalytics.js:205-216 | the overages come in the order of their entries in `budgetByCategory` |
| `Insights.BudgetSummaryInsight` | src/hooks/useExpenseAnalytics.js:203-222 | the summary is absent exactly when no entry is over a monthly budget; otherwise it names the current month and lists exactly those overages |
| `Insights.SumByCategoryGet` | src/hooks/useExpenseAnalytics.js:233-246 | the month-filtered reduce holds each category's total within that month, and has a key exactly for the categories spent in it |
| `Insights.SumByCategoryAdds` | src/hooks/useExpenseAnalytics.js:241-244 | one more expense of the month keeps the reduce equal, category by category and in its key set, to the month's filtered totals |
| `Insights.SumByCategoryFiltered` | src/hooks/useExpenseAnalytics.js:233-246 | filtering inside the reduce agrees, key by key and in its key set, with filtering first and then grouping, as the top-category insight does |
| `Insights.SpreadKeys` | src/hooks/useExpenseAnalytics.js:253-256 | the spread object's keys are the categories of either month |
| `Insights.SpreadOrder` | src/hooks/useExpenseAnalytics.js:253-256 | spreading keeps the first object's keys in place and appends the second's new keys in their order: the distinct keys of both, in order of first appearance |
| `Insights.SumByCategoryDistinct` | src/hooks/useExpenseAnalytics.js:233-246 | the month-filtered reduce holds each category once |
| `Insights.TrendKeysOrder` | src/hooks/useExpenseAnalytics.js:248-256 | the trend visits the last month's categories first, in their order, then the previous month's categories the last month lacks |
| `Insights.DiffPercent` | src/hooks/useExpenseAnalytics.js:262-265 | a category absent the month before counts as exactly 100%; otherwise the percent times the earlier total is 100 times the change |
| `Insights.BiggestChangeSpec` | src/hooks/useExpenseAnalytics.js:251-277 | the biggest change is absent exactly when every category is 0 in both months; otherwise it is a considered category with its own percent, no considered category changed by more in absolute value, and every earlier one changed by strictly less |
| `Insights.FindBiggestChange` | src/hooks/useExpenseAnalytics.js:251-277 | the forEach loop that updates `biggestChange` computes exactly the biggest change |
| `Insights.TrendCandidatesSpec` | src/hooks/useExpenseAnalytics.js:248-258 | the trend considers exactly the categories spent in either month, each with its total within each of the two months |
| `Insights.CategoryTrendSpec` | src/hooks/useExpenseAnalytics.js:227-288 | the trend insight is absent exactly when no category has a non-zero total in either month; otherwise it reports the first largest absolute change, with "increased" exactly when the change is positive |
| `Insights.CategoryTrendInsight` | src/hooks/useExpenseAnalytics.js:229 | with fewer than two months there is no trend insight |
| `Insights.FindCategoryTrend` | src/hooks/useExpenseAnalytics.js:227-288 | the trend section as it runs computes exactly the trend insight |
| `ExpenseAnalytics.EmptyByCategoryAgrees` | src/hooks/useExpenseAnalytics.js:9-14 | the guard's zero-filled object is exactly what the category totals would be with no expenses |
| `ExpenseAnalytics.FillEmptyByCategory` | src/hooks/useExpenseAnalytics.js:10-14 | the guard's forEach fill computes exactly the zero-filled object |
| `ExpenseAnalytics.CurrentMonth` | src/hooks/useExpenseAnalytics.js:77-80 | `currentMonth` is the label of the last entry of `sortedMonths`, and it parses back to that entry's month |
| `ExpenseAnalytics.MonthOverMonthOfSorted` | src/hooks/useExpenseAnalytics.js:151-166 | with two or more months, the insight compares the last two entries of `sortedMonths` by their month totals |
| `ExpenseAnalytics.MonthOverMonthOfSpec` | src/hooks/useExpenseAnalytics.js:149-166 | with two or more months, the insight compares the latest month with the one before it, by their month totals |
| `ExpenseAnalytics.UseExpenseAnalytics` | src/hooks/useExpenseAnalytics.js:1-303 | the hook, with its loops, returns exactly the record `Analyze` specifies |
| `ExpenseAnalytics.AnalyzeEmpty` | src/hooks/useExpenseAnalytics.js:9-26 | no expenses give a zero total, every category name mapped to 0, no month totals, no budget statuses and no insights |
| `ExpenseAnalytics.AnalyzeByCategory` | src/hooks/useExpenseAnalytics.js:39-47 | the record's `byCategory` has exactly the category names as keys, each with its exact-name total; when every expense names a listed category, they add up to `totalAmount` |
| `ExpenseAnalytics.AnalyzeTotals` | src/hooks/useExpenseAnalytics.js:31-63 | `totalAmount` is the sum of all amounts; `byMonth` has a key exactly for the months with expenses, each with its total, and its values add up to `totalAmount` |
| `ExpenseAnalytics.AnalyzeBudgets` | src/hooks/useExpenseAnalytics.js:77-144 | budgets are matched against the latest month with spending, its quarter and its year; `budgetByCategory` has entries exactly for the listed categories with an applicable budget, each resolved by precedence and consistent |
| `ExpenseAnalytics.AnalyzeSingleMonth` | src/hooks/useExpenseAnalytics.js:149-229 | with all spending in one month there is neither a month-over-month nor a trend insight |
| `ExpenseAnalytics.AnalyzeMonthOverMonth` | src/hooks/useExpenseAnalytics.js:149-166 | with spending in two or more months, the insight compares the latest month with the latest earlier month with spending, present exactly when that earlier total is positive |
| `ExpenseAnalytics.AnalyzeTopCategory` | src/hooks/useExpenseAnalytics.js:171-198 | with any expense, the top-category insight is present and names the current month |
| `ExpenseAnalytics.AnalyzeBudgetSummary` | src/hooks/useExpenseAnalytics.js:203-222 | the summary is absent exactly when no category is over a monthly budget; otherwise it names the current month and lists each over-budget category with spending minus limit |
| `ExpenseAnalytics.AnalyzeCategoryTrend` | src/hooks/useExpenseAnalytics.js:227-231 | the trend compares the last two months in order of first appearance among the expenses |

## Left out

- Fields the hook never reads are not modelled: expense `id`/`title`/`userId`, budget `id`/`userId`, and every category field except `name`.
- `Number(...)` coercion is not modelled. Amounts and limits are already real numbers, so string amounts, `NaN` and missing fields do not arise.
- Floating-point arithmetic is not modelled. Sums and percentages are exact reals.
- Date parsing and locale formatting are not modelled. An expense date is already a (year, month, day) value. Month labels use the English short month names and a decimal year with no leading zeros. Time zones, other locales and invalid dates do not arise.
- The `toFixed(1)` rounding, the `₹` sign and the sentence wording are left to presentation. Each insight is a datatype carrying the values its sentence prints.
- Budgets.Status: `percentUsed` is kept exact, not rounded to one decimal as the code does before storing it.
- Insights.MonthOverMonthInsight: the percent is kept exact, not rounded to one decimal.
- Insights.CategoryTrendInsight: the percent is kept exact, not rounded to one decimal.
- The join of the over-budget messages with `", "` is not modelled. `Insights.BudgetSummaryInsight` keeps the list of overages, in `budgetByCategory` order.
- The null checks on `currentMonth` (lines 82, 93, 173 and 210) are not modelled. They cannot fail once an expense exists, and the empty list returns at the guard.
- The `|| []` and default-parameter guards against missing lists are not modelled. Sequences are never null.
- The `|| 0` fallbacks (lines 60, 187, 243, 257-258) are read as "0 when the key is absent". A stored `NaN` is not modelled.
- Category names that are inherited members of `Object.prototype` (`toString`, `constructor`, `valueOf`, `hasOwnProperty`, ...) are not modelled. For them `acc[e.category] || 0` reads an inherited function instead of 0, and the sums turn into strings. The model's objects have no prototype, so such a name behaves like any other.
- Aggregation.ByCategorySpec: does not hold for a category named `__proto__`. The code's assignment `byCategory[cat.name] = total` (line 46) then sets the prototype, which a number leaves unchanged, so no key appears; the model stores the key. The same holds for a `__proto__` key in the other objects.
- Years below 100 are not modelled as the code treats them. The sort (lines 67-75) re-reads a label as `"Mon 1, YY"`, and date parsing takes a two-digit year as 19YY or 20YY, so its order can differ from the model's, which orders by the year as printed.
- JavaScript's ordering of integer-like object keys (such as a category named `"2024"`) before the other keys is not modelled. Every `Dict` keeps plain insertion order, as JavaScript does for all other keys.
- Insights.SumByCategoryFiltered: the two objects are shown equal key by key and in their key sets, but their key order is not compared.
- The React hook wrapper, the data services, authentication and the UI are not part of this model.
