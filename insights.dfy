/** The four insights. Each is a datatype carrying what its sentence says;
    the wording, the one-decimal rounding and the currency sign are left
    to presentation. */
module Insights {
  import opened Dict
  import opened Calendar
  import opened Aggregation
  import opened Budgets

  function Abs(x: real): real
  {
    if x < 0.0 then -x else x
  }

  // ---------------------------------------------------------------------
  // Month over month
  // ---------------------------------------------------------------------

  /** "You spent {percent}% {more ? "more" : "less"} in {last} compared to {prev}." */
  datatype MonthOverMonth = MonthOverMonth(percent: real, more: bool, last: string, prev: string)

  /** `m` is the insight for month `last` against month `prev`, with totals
      `lastAmt` and `prevAmt`: present exactly when the earlier total is
      positive, "more" exactly when the later total is larger, and its
      percent is the size of the change relative to the earlier total. */
  ghost predicate Compares(m: Option<MonthOverMonth>, last: string, prev: string, lastAmt: real, prevAmt: real)
  {
    (m.Some? <==> prevAmt > 0.0) &&
    (m.Some? ==> m.value.last == last && m.value.prev == prev &&
                 (m.value.more <==> lastAmt > prevAmt) &&
                 m.value.percent * prevAmt == Abs(lastAmt - prevAmt) * 100.0)
  }

  /** Compares the two chronologically latest months of `sortedMonths`;
      nothing when there are fewer than two or the earlier one's total is
      not positive. A change of exactly zero reads as "less". */
  function MonthOverMonthInsight(sortedMonths: seq<MonthEntry>, byMonth: Dict<real>): (r: Option<MonthOverMonth>)
    requires forall i :: 0 <= i < |sortedMonths| ==> sortedMonths[i].monthLabel in Keys(byMonth)
    ensures |sortedMonths| < 2 ==> r.None?
    ensures |sortedMonths| >= 2 ==>
              Compares(r, sortedMonths[|sortedMonths| - 1].monthLabel, sortedMonths[|sortedMonths| - 2].monthLabel,
                       GetOr(byMonth, sortedMonths[|sortedMonths| - 1].monthLabel, 0.0),
                       GetOr(byMonth, sortedMonths[|sortedMonths| - 2].monthLabel, 0.0))
  {
    var n := |sortedMonths|;
    if n < 2 then None
    else
      var last := sortedMonths[n - 1].monthLabel;
      var prev := sortedMonths[n - 2].monthLabel;
      var lastAmt := GetOr(byMonth, last, 0.0);
      var prevAmt := GetOr(byMonth, prev, 0.0);
      if prevAmt > 0.0 then
        var diff := (lastAmt - prevAmt) / prevAmt * 100.0;
        assert diff * prevAmt == (lastAmt - prevAmt) * 100.0;
        Some(MonthOverMonth(Abs(diff), diff > 0.0, last, prev))
      else None
  }

  // ---------------------------------------------------------------------
  // Top category of the current month
  // ---------------------------------------------------------------------

  /** "Your highest spending category in {month} was {category} (₹{amount})." */
  datatype TopCategory = TopCategory(month: string, category: string, amount: real)

  /** The expenses dated in the month labelled `monthLabel`, in order. */
  function InMonth(es: seq<Expense>, monthLabel: string): (r: seq<Expense>)
    ensures forall e :: e in r <==> e in es && MonthLabelOf(e) == monthLabel
  {
    if |es| == 0 then []
    else
      var pre := InMonth(es[..|es| - 1], monthLabel);
      assert es == es[..|es| - 1] + [es[|es| - 1]];
      if MonthLabelOf(es[|es| - 1]) == monthLabel then pre + [es[|es| - 1]] else pre
  }

  /** Filtering a month keeps every expense of that month exactly as often
      as it occurs, and no other. */
  lemma {:induction false} InMonthCounts(es: seq<Expense>, m: string)
    ensures forall e :: multiset(InMonth(es, m))[e] == if MonthLabelOf(e) == m then multiset(es)[e] else 0
  {
    if |es| > 0 {
      var n := |es|;
      InMonthCounts(es[..n - 1], m);
      assert es == es[..n - 1] + [es[n - 1]];
    }
  }

  /** The positions of the expenses dated in month `m`: every such
      position, each once, in increasing order. */
  function MonthPositions(es: seq<Expense>, m: string): (f: seq<nat>)
    ensures forall a :: 0 <= a < |f| ==> f[a] < |es| && MonthLabelOf(es[f[a]]) == m
    ensures forall a, b :: 0 <= a < b < |f| ==> f[a] < f[b]
    ensures forall i :: 0 <= i < |es| && MonthLabelOf(es[i]) == m ==> i in f
  {
    if |es| == 0 then []
    else
      var n := |es|;
      var pre := MonthPositions(es[..n - 1], m);
      assert forall i :: 0 <= i < n - 1 ==> es[..n - 1][i] == es[i];
      if MonthLabelOf(es[n - 1]) == m then pre + [n - 1] else pre
  }

  /** Filtering a month reads the expenses at exactly the month's
      positions, in increasing order: the filter is an order-preserving
      subsequence, repeated records included. */
  lemma {:induction false} InMonthOrder(es: seq<Expense>, m: string)
    ensures |InMonth(es, m)| == |MonthPositions(es, m)|
    ensures forall a :: 0 <= a < |InMonth(es, m)| ==> InMonth(es, m)[a] == es[MonthPositions(es, m)[a]]
  {
    if |es| == 0 {
      assert InMonth(es, m) == [];
    } else {
      var n := |es|;
      var r, pre := InMonth(es, m), InMonth(es[..n - 1], m);
      var f, fpre := MonthPositions(es, m), MonthPositions(es[..n - 1], m);
      InMonthOrder(es[..n - 1], m);
      if MonthLabelOf(es[n - 1]) == m {
        assert r == pre + [es[n - 1]] && f == fpre + [n - 1];
      } else {
        assert r == pre && f == fpre;
      }
      forall a | 0 <= a < |r|
        ensures r[a] == es[f[a]]
      {
        if a < |pre| {
          assert r[a] == pre[a] == es[..n - 1][fpre[a]];
        }
      }
    }
  }

  /** A reference for the month's per-category totals that never builds
      the filtered list: over all expenses, the amounts of those dated in
      month `m` and filed under category `c`. */
  function MonthCategorySum(es: seq<Expense>, m: string, c: string): real
  {
    if |es| == 0 then 0.0
    else
      var e := es[|es| - 1];
      MonthCategorySum(es[..|es| - 1], m, c) + if MonthLabelOf(e) == m && e.category == c then e.amount else 0.0
  }

  /** A category's total over the month's expenses is the reference sum. */
  lemma {:induction false} InMonthCategoryTotal(es: seq<Expense>, m: string, c: string)
    ensures CategoryTotal(InMonth(es, m), c) == MonthCategorySum(es, m, c)
  {
    if |es| > 0 {
      var n := |es|;
      var e := es[n - 1];
      var pre := InMonth(es[..n - 1], m);
      InMonthCategoryTotal(es[..n - 1], m, c);
      if MonthLabelOf(e) == m {
        assert InMonth(es, m) == pre + [e];
        SumWhereSnoc(pre, e, ByCategoryName, c);
        assert KeyOf(ByCategoryName, e) == e.category;
      } else {
        assert InMonth(es, m) == pre;
      }
    }
  }

  /** The reduce that keeps a running maximum and replaces it only by a
      strictly larger entry: the position of a largest value, the first one on ties. */
  function TopIndex(d: Dict<real>): (i: nat)
    requires |d| > 0
    ensures i < |d|
    ensures forall j :: 0 <= j < |d| ==> d[j].1 <= d[i].1
    ensures forall j :: 0 <= j < i ==> d[j].1 < d[i].1
  {
    if |d| == 1 then 0
    else
      var m := TopIndex(d[..|d| - 1]);
      if d[|d| - 1].1 > d[m].1 then |d| - 1 else m
  }

  /** `byCat`: per-category totals of the expenses of one month, keyed in
      order of first appearance. */
  function MonthCategoryTotals(es: seq<Expense>, monthLabel: string): Dict<real>
  {
    GroupSum(InMonth(es, monthLabel), ByCategoryName)
  }

  function TopCategoryInsight(es: seq<Expense>, currentMonth: string): Option<TopCategory>
  {
    var monthly := InMonth(es, currentMonth);
    if |monthly| == 0 then None
    else
      var byCat := GroupSum(monthly, ByCategoryName);
      var i := TopIndex(byCat);
      Some(TopCategory(currentMonth, byCat[i].0, byCat[i].1))
  }

  /** The top category is present exactly when the month has expenses. */
  lemma {:induction false} TopCategoryPresent(es: seq<Expense>, m: string)
    ensures TopCategoryInsight(es, m).None? <==> forall i :: 0 <= i < |es| ==> MonthLabelOf(es[i]) != m
  {
    var monthly := InMonth(es, m);
    if |monthly| > 0 {
      assert monthly[0] in es;
    } else {
      forall i | 0 <= i < |es|
        ensures MonthLabelOf(es[i]) != m
      {
        assert es[i] in es;
      }
    }
  }

  /** The top category is a category spent in that month, its amount is
      that category's total for the month, and no category of the month
      spent more. */
  lemma {:induction false} TopCategoryIsLargest(es: seq<Expense>, m: string)
    requires TopCategoryInsight(es, m).Some?
    ensures var r := TopCategoryInsight(es, m).value;
            var monthly := InMonth(es, m);
            && r.month == m
            && r.category in KeysOf(monthly, ByCategoryName)
            && r.amount == CategoryTotal(monthly, r.category)
            && (forall c :: c in KeysOf(monthly, ByCategoryName) ==> CategoryTotal(monthly, c) <= r.amount)
  {
    var r := TopCategoryInsight(es, m).value;
    var monthly := InMonth(es, m);
    var byCat := GroupSum(monthly, ByCategoryName);
    var i := TopIndex(byCat);
    assert r == TopCategory(m, byCat[i].0, byCat[i].1);
    GroupSumKeys(monthly, ByCategoryName);
    GroupSumDistinct(monthly, ByCategoryName);
    GetAt(byCat, i);
    assert byCat[i].0 in KeysOf(monthly, ByCategoryName) by {
      assert Keys(byCat)[i] == byCat[i].0;
    }
    GroupSumGet(monthly, ByCategoryName, byCat[i].0);
    forall c | c in KeysOf(monthly, ByCategoryName)
      ensures CategoryTotal(monthly, c) <= r.amount
    {
      assert c in Keys(byCat);
      var j :| 0 <= j < |byCat| && Keys(byCat)[j] == c;
      GetAt(byCat, j);
      GroupSumGet(monthly, ByCategoryName, c);
    }
  }

  /** Ties go to the category seen first in the month: every category
      before the top one in `byCat` spent strictly less. */
  lemma {:induction false} TopCategoryFirstOnTies(es: seq<Expense>, m: string)
    requires TopCategoryInsight(es, m).Some?
    ensures var r := TopCategoryInsight(es, m).value;
            var byCat := MonthCategoryTotals(es, m);
            exists i :: 0 <= i < |byCat| && byCat[i].0 == r.category &&
                        forall j :: 0 <= j < i ==> byCat[j].1 < r.amount
  {
    var byCat := MonthCategoryTotals(es, m);
    var i := TopIndex(byCat);
  }

  // ---------------------------------------------------------------------
  // Monthly over-budget summary
  // ---------------------------------------------------------------------

  /** "{category} exceeded its {month} budget by ₹{amount}" */
  datatype Overage = Overage(category: string, amount: real)

  /** The over-budget messages joined by ", ". */
  datatype BudgetSummary = BudgetSummary(month: string, overages: seq<Overage>)

  predicate OverMonthlyBudget(s: BudgetStatus)
  {
    s.overBudget && s.source == Monthly
  }

  /** The entries of `budgetByCategory` that are over budget against a
      monthly budget, each as its category and the absolute overage. */
  function OverMonthly(d: Dict<BudgetStatus>): (r: seq<Overage>)
    ensures forall o :: o in r <==> exists i :: 0 <= i < |d| && OverMonthlyBudget(d[i].1) &&
                                              o == Overage(d[i].0, Abs(d[i].1.remaining))
  {
    if |d| == 0 then []
    else
      var n := |d|;
      var pre := OverMonthly(d[..n - 1]);
      var (category, s) := d[n - 1];
      assert forall i :: 0 <= i < n - 1 ==> d[..n - 1][i] == d[i];
      if OverMonthlyBudget(s) then pre + [Overage(category, Abs(s.remaining))] else pre
  }

  /** The positions of `d` whose status is over a monthly budget. */
  ghost function OverPositions(d: Dict<BudgetStatus>): set<int>
  {
    set i | 0 <= i < |d| && OverMonthlyBudget(d[i].1)
  }

  /** One overage per entry over a monthly budget. */
  lemma {:induction false} OverMonthlyCount(d: Dict<BudgetStatus>)
    ensures |OverMonthly(d)| == |OverPositions(d)|
  {
    if |d| > 0 {
      var n := |d|;
      OverMonthlyCount(d[..n - 1]);
      assert forall i :: 0 <= i < n - 1 ==> d[..n - 1][i] == d[i];
      if OverMonthlyBudget(d[n - 1].1) {
        assert OverPositions(d) == OverPositions(d[..n - 1]) + {n - 1};
        assert n - 1 !in OverPositions(d[..n - 1]);
      } else {
        assert OverPositions(d) == OverPositions(d[..n - 1]);
      }
    }
  }

  /** `x` and `y` are the overages of two entries of `d`, `x`'s first. */
  ghost predicate OverPrecedes(x: Overage, y: Overage, d: Dict<BudgetStatus>)
  {
    exists i, j :: 0 <= i < j < |d| && OverMonthlyBudget(d[i].1) && OverMonthlyBudget(d[j].1) &&
      x == Overage(d[i].0, Abs(d[i].1.remaining)) && y == Overage(d[j].0, Abs(d[j].1.remaining))
  }

  /** The overages come in the order of their entries. */
  lemma {:induction false} OverMonthlyOrder(d: Dict<BudgetStatus>)
    ensures forall a, b :: 0 <= a < b < |OverMonthly(d)| ==> OverPrecedes(OverMonthly(d)[a], OverMonthly(d)[b], d)
  {
    if |d| == 0 {
      assert OverMonthly(d) == [];
    } else {
      var n := |d|;
      var pre := OverMonthly(d[..n - 1]);
      var r := OverMonthly(d);
      OverMonthlyOrder(d[..n - 1]);
      assert forall i :: 0 <= i < n - 1 ==> d[..n - 1][i] == d[i];
      forall a, b | 0 <= a < b < |r|
        ensures OverPrecedes(r[a], r[b], d)
      {
        if OverMonthlyBudget(d[n - 1].1) && b == |pre| {
          assert r == pre + [Overage(d[n - 1].0, Abs(d[n - 1].1.remaining))];
          assert pre[a] in pre;
          var i :| 0 <= i < n - 1 && OverMonthlyBudget(d[..n - 1][i].1) &&
                   pre[a] == Overage(d[..n - 1][i].0, Abs(d[..n - 1][i].1.remaining));
          assert r[a] == pre[a];
        } else {
          assert r[..|pre|] == pre && b < |pre|;
          assert OverPrecedes(pre[a], pre[b], d[..n - 1]);
          var i, j :| 0 <= i < j < n - 1 && OverMonthlyBudget(d[..n - 1][i].1) && OverMonthlyBudget(d[..n - 1][j].1) &&
                      pre[a] == Overage(d[..n - 1][i].0, Abs(d[..n - 1][i].1.remaining)) &&
                      pre[b] == Overage(d[..n - 1][j].0, Abs(d[..n - 1][j].1.remaining));
          assert r[a] == pre[a] && r[b] == pre[b];
        }
      }
    }
  }

  function BudgetSummaryInsight(budgetByCategory: Dict<BudgetStatus>, currentMonth: string): (r: Option<BudgetSummary>)
    ensures r.None? <==> forall i :: 0 <= i < |budgetByCategory| ==> !OverMonthlyBudget(budgetByCategory[i].1)
    ensures r.Some? ==> r.value.month == currentMonth && r.value.overages == OverMonthly(budgetByCategory)
  {
    var over := OverMonthly(budgetByCategory);
    if |over| > 0 then
      assert over[0] in over;
      Some(BudgetSummary(currentMonth, over))
    else
      assert forall i :: 0 <= i < |budgetByCategory| ==> !OverMonthlyBudget(budgetByCategory[i].1) by {
        forall i | 0 <= i < |budgetByCategory|
          ensures !OverMonthlyBudget(budgetByCategory[i].1)
        {
          var (category, st) := budgetByCategory[i];
          assert OverMonthlyBudget(st) ==> Overage(category, Abs(st.remaining)) in over;
        }
      }
      None
  }

  // ---------------------------------------------------------------------
  // Category trend
  // ---------------------------------------------------------------------

  /** "{category} spending {increased ? "increased" : "decreased"} {percent}% compared to last month." */
  datatype CategoryTrend = CategoryTrend(category: string, percent: real, increased: bool)

  /** `biggestChange`: a category and its percent change. */
  datatype Change = Change(category: string, diffPercent: real)

  /** `sumByCategory(month)`: a reduce over all expenses that adds only
      those of `month` into a per-category accumulator. */
  function SumByCategory(es: seq<Expense>, month: string): Dict<real>
  {
    if |es| == 0 then []
    else
      var acc := SumByCategory(es[..|es| - 1], month);
      var e := es[|es| - 1];
      if MonthLabelOf(e) == month then Put(acc, e.category, GetOr(acc, e.category, 0.0) + e.amount)
      else acc
  }

  /** Adding up a month inside the reduce gives, for every category, the
      month's total in that category, and has a key exactly for the
      categories spent in that month. */
  lemma {:induction false} SumByCategoryGet(es: seq<Expense>, month: string, k: string)
    ensures GetOr(SumByCategory(es, month), k, 0.0) == CategoryTotal(InMonth(es, month), k)
    ensures k in Keys(SumByCategory(es, month)) <==> k in KeysOf(InMonth(es, month), ByCategoryName)
  {
    if |es| > 0 {
      var n := |es|;
      SumByCategoryGet(es[..n - 1], month, k);
      if MonthLabelOf(es[n - 1]) == month {
        SumByCategoryAdds(es, month, k);
      } else {
        assert SumByCategory(es, month) == SumByCategory(es[..n - 1], month);
        assert InMonth(es, month) == InMonth(es[..n - 1], month);
      }
    }
  }

  /** An expense of the month adds its amount under its own category. */
  lemma {:induction false} SumByCategoryAdds(es: seq<Expense>, month: string, k: string)
    requires |es| > 0 && MonthLabelOf(es[|es| - 1]) == month
    requires GetOr(SumByCategory(es[..|es| - 1], month), k, 0.0) == CategoryTotal(InMonth(es[..|es| - 1], month), k)
    requires k in Keys(SumByCategory(es[..|es| - 1], month)) <==> k in KeysOf(InMonth(es[..|es| - 1], month), ByCategoryName)
    ensures GetOr(SumByCategory(es, month), k, 0.0) == CategoryTotal(InMonth(es, month), k)
    ensures k in Keys(SumByCategory(es, month)) <==> k in KeysOf(InMonth(es, month), ByCategoryName)
  {
    var e := es[|es| - 1];
    var acc := SumByCategory(es[..|es| - 1], month);
    var f := InMonth(es[..|es| - 1], month);
    var v := GetOr(acc, e.category, 0.0) + e.amount;
    var r := Put(acc, e.category, v);
    assert SumByCategory(es, month) == r;
    GetPut(acc, e.category, v, k);
    PutKeys(acc, e.category, v);
    GetSome(acc, k);
    GetSome(r, k);
    assert InMonth(es, month) == f + [e];
    SumWhereSnoc(f, e, ByCategoryName, k);
    KeysOfSnoc(f, e, ByCategoryName);
    assert KeyOf(ByCategoryName, e) == e.category;
    assert GetOr(r, k, 0.0) == CategoryTotal(f + [e], k);
    assert k in Keys(r) <==> k in KeysOf(f + [e], ByCategoryName);
  }

  /** Adding up a month inside the reduce agrees, key by key, with first
      filtering the month's expenses, as the top-category insight does. */
  lemma {:induction false} SumByCategoryFiltered(es: seq<Expense>, month: string, k: string)
    ensures GetOr(SumByCategory(es, month), k, 0.0) == GetOr(MonthCategoryTotals(es, month), k, 0.0)
    ensures k in Keys(SumByCategory(es, month)) <==> k in Keys(MonthCategoryTotals(es, month))
  {
    SumByCategoryGet(es, month, k);
    MonthCategoryAmount(es, month, k);
  }

  /** Spreading `a` and then `b` into one object: the entries of `b`
      assigned one by one onto `a`. */
  function Spread(a: Dict<real>, b: Dict<real>): Dict<real>
  {
    if |b| == 0 then a
    else Put(Spread(a, b[..|b| - 1]), b[|b| - 1].0, b[|b| - 1].1)
  }

  /** The spread object's keys are those of either side. */
  lemma {:induction false} SpreadKeys(a: Dict<real>, b: Dict<real>)
    ensures forall k :: k in Keys(Spread(a, b)) <==> k in Keys(a) || k in Keys(b)
  {
    if |b| > 0 {
      var n := |b|;
      SpreadKeys(a, b[..n - 1]);
      PutKeys(Spread(a, b[..n - 1]), b[n - 1].0, b[n - 1].1);
      assert Keys(b) == Keys(b[..n - 1]) + [b[n - 1].0];
    }
  }

  /** The spread object keeps the keys of `a` in place and appends the
      keys of `b` it does not yet have, in the order `b` lists them. */
  lemma {:induction false} SpreadOrder(a: Dict<real>, b: Dict<real>)
    requires DistinctKeys(a)
    ensures Keys(Spread(a, b)) == Dedup(Keys(a) + Keys(b))
  {
    if |b| == 0 {
      assert Keys(a) + Keys(b) == Keys(a);
      DedupDistinct(Keys(a));
    } else {
      var n := |b|;
      var (k, v) := b[n - 1];
      var sp := Spread(a, b[..n - 1]);
      var s := Keys(a) + Keys(b);
      var s' := Keys(a) + Keys(b[..n - 1]);
      SpreadOrder(a, b[..n - 1]);
      assert s[..|s| - 1] == s' && s[|s| - 1] == k;
      assert Dedup(s) == if k in Dedup(s') then Dedup(s') else Dedup(s') + [k];
      PutKeys(sp, k, v);
      assert Spread(a, b) == Put(sp, k, v);
    }
  }

  /** The per-category totals of a month hold each category once. */
  lemma {:induction false} SumByCategoryDistinct(es: seq<Expense>, month: string)
    ensures DistinctKeys(SumByCategory(es, month))
  {
    if |es| > 0 {
      var acc := SumByCategory(es[..|es| - 1], month);
      var e := es[|es| - 1];
      SumByCategoryDistinct(es[..|es| - 1], month);
      if MonthLabelOf(e) == month {
        PutDistinct(acc, e.category, GetOr(acc, e.category, 0.0) + e.amount);
      }
    }
  }

  /** The relative change from the previous to the last month, in percent;
      a category with nothing the month before counts as exactly 100%. */
  function DiffPercent(lastAmt: real, prevAmt: real): (r: real)
    ensures prevAmt == 0.0 ==> r == 100.0
    ensures prevAmt != 0.0 ==> r * prevAmt == (lastAmt - prevAmt) * 100.0
  {
    if prevAmt == 0.0 then 100.0
    else
      var r := (lastAmt - prevAmt) / prevAmt * 100.0;
      assert r * prevAmt == (lastAmt - prevAmt) * 100.0;
      r
  }

  /** One category of the trend loop with its totals in the two months:
      each read from its month's totals with a fallback of 0. */
  datatype Candidate = Candidate(category: string, lastAmt: real, prevAmt: real)

  function Candidates(keys: seq<string>, lastBy: Dict<real>, prevBy: Dict<real>): (cs: seq<Candidate>)
    ensures |cs| == |keys|
    ensures forall i :: 0 <= i < |keys| ==>
              cs[i] == Candidate(keys[i], GetOr(lastBy, keys[i], 0.0), GetOr(prevBy, keys[i], 0.0))
  {
    seq(|keys|, i requires 0 <= i < |keys| =>
      Candidate(keys[i], GetOr(lastBy, keys[i], 0.0), GetOr(prevBy, keys[i], 0.0)))
  }

  /** A category is considered unless it is 0 in both months. */
  predicate Counts(c: Candidate)
  {
    !(c.prevAmt == 0.0 && c.lastAmt == 0.0)
  }

  function Delta(c: Candidate): real
  {
    DiffPercent(c.lastAmt, c.prevAmt)
  }

  /** The trend loop: `biggestChange` is replaced only by a strictly
      larger absolute change. */
  function BiggestChange(cs: seq<Candidate>): Option<Change>
  {
    if |cs| == 0 then None
    else
      var best := BiggestChange(cs[..|cs| - 1]);
      var c := cs[|cs| - 1];
      if !Counts(c) then best
      else if best.None? || Abs(Delta(c)) > Abs(best.value.diffPercent) then Some(Change(c.category, Delta(c)))
      else best
  }

  /** `biggestChange` is the change of `cs[i]`: a considered category with
      its own percent change; no considered category changed by more, and
      every considered category before it changed by strictly less. */
  ghost predicate IsBiggest(cs: seq<Candidate>, i: int, ch: Change)
  {
    && 0 <= i < |cs|
    && cs[i].category == ch.category
    && Counts(cs[i])
    && ch.diffPercent == Delta(cs[i])
    && (forall j :: 0 <= j < |cs| && Counts(cs[j]) ==> Abs(Delta(cs[j])) <= Abs(ch.diffPercent))
    && (forall j :: 0 <= j < i && Counts(cs[j]) ==> Abs(Delta(cs[j])) < Abs(ch.diffPercent))
  }

  lemma {:induction false} BiggestChangeNone(cs: seq<Candidate>)
    ensures BiggestChange(cs).None? <==> forall j :: 0 <= j < |cs| ==> !Counts(cs[j])
  {
    if |cs| > 0 {
      var n := |cs|;
      BiggestChangeNone(cs[..n - 1]);
      assert forall j :: 0 <= j < n - 1 ==> cs[..n - 1][j] == cs[j];
    }
  }

  lemma {:induction false} BiggestChangeWinner(cs: seq<Candidate>) returns (i: int)
    requires BiggestChange(cs).Some?
    ensures IsBiggest(cs, i, BiggestChange(cs).value)
  {
    var n := |cs|;
    var pre := cs[..n - 1];
    var c := cs[n - 1];
    assert forall j :: 0 <= j < n - 1 ==> pre[j] == cs[j];
    var best := BiggestChange(pre);
    var r := BiggestChange(cs).value;
    if best.None? || r != best.value {
      i := n - 1;
      assert r == Change(c.category, Delta(c)) && Counts(c);
      if best.Some? {
        var b := BiggestChangeWinner(pre);
      } else {
        BiggestChangeNone(pre);
      }
    } else {
      i := BiggestChangeWinner(pre);
    }
  }

  /** The biggest change is absent exactly when every category is 0 in both
      months; otherwise it is the first of the largest absolute changes. */
  lemma {:induction false} BiggestChangeSpec(cs: seq<Candidate>)
    ensures BiggestChange(cs).None? <==> forall j :: 0 <= j < |cs| ==> !Counts(cs[j])
    ensures BiggestChange(cs).Some? ==> exists i :: IsBiggest(cs, i, BiggestChange(cs).value)
  {
    BiggestChangeNone(cs);
    if BiggestChange(cs).Some? {
      var i := BiggestChangeWinner(cs);
    }
  }

  /** The trend loop as the source runs it, updating `biggestChange`. */
  method FindBiggestChange(keys: seq<string>, lastBy: Dict<real>, prevBy: Dict<real>)
    returns (biggestChange: Option<Change>)
    ensures biggestChange == BiggestChange(Candidates(keys, lastBy, prevBy))
  {
    ghost var cs := Candidates(keys, lastBy, prevBy);
    biggestChange := None;
    for i := 0 to |keys|
      invariant biggestChange == BiggestChange(cs[..i])
    {
      var cat := keys[i];
      assert cs[..i + 1][..i] == cs[..i];
      var lastAmt := GetOr(lastBy, cat, 0.0);
      var prevAmt := GetOr(prevBy, cat, 0.0);
      if !(prevAmt == 0.0 && lastAmt == 0.0) {
        var diffPercent := DiffPercent(lastAmt, prevAmt);
        if biggestChange.None? || Abs(diffPercent) > Abs(biggestChange.value.diffPercent) {
          biggestChange := Some(Change(cat, diffPercent));
        }
      }
    }
    assert cs[..|keys|] == cs;
  }

  /** The categories the trend considers: the keys of both months' totals
      spread into one object, last month's first. */
  function TrendKeys(lastBy: Dict<real>, prevBy: Dict<real>): seq<string>
  {
    Keys(Spread(lastBy, prevBy))
  }

  /** The trend visits last month's categories first, in their order,
      then the previous month's categories last month did not have. */
  lemma {:induction false} TrendKeysOrder(es: seq<Expense>, last: string, prev: string)
    ensures TrendKeys(SumByCategory(es, last), SumByCategory(es, prev)) ==
            Dedup(Keys(SumByCategory(es, last)) + Keys(SumByCategory(es, prev)))
  {
    SumByCategoryDistinct(es, last);
    SpreadOrder(SumByCategory(es, last), SumByCategory(es, prev));
  }

  /** Reading a category with fallback 0: the category's total within the
      month, 0 when it spent nothing that month. */
  lemma {:induction false} MonthCategoryAmount(es: seq<Expense>, month: string, k: string)
    ensures GetOr(MonthCategoryTotals(es, month), k, 0.0) == CategoryTotal(InMonth(es, month), k)
    ensures k in Keys(MonthCategoryTotals(es, month)) <==> k in KeysOf(InMonth(es, month), ByCategoryName)
  {
    var monthly := InMonth(es, month);
    GroupSumGet(monthly, ByCategoryName, k);
    GroupSumKeys(monthly, ByCategoryName);
    if k !in KeysOf(monthly, ByCategoryName) {
      SumKeyAbsent(Keyed(monthly, ByCategoryName), k);
      SumKeyKeyed(monthly, ByCategoryName, k);
    }
  }

  /** The trend loop's input: each category spent in either month, in the
      order of the spread of both months' totals, with its totals read from
      each month with a fallback of 0. */
  function TrendCandidates(es: seq<Expense>, last: string, prev: string): seq<Candidate>
  {
    var lastBy := SumByCategory(es, last);
    var prevBy := SumByCategory(es, prev);
    Candidates(TrendKeys(lastBy, prevBy), lastBy, prevBy)
  }

  /** The trend looks at exactly the categories spent in either month, and
      compares each category's total within the last month with its total
      within the previous one. */
  lemma {:induction false} TrendCandidatesSpec(es: seq<Expense>, last: string, prev: string)
    ensures var lastBy := SumByCategory(es, last);
            var prevBy := SumByCategory(es, prev);
            forall k :: k in TrendKeys(lastBy, prevBy) <==>
              k in KeysOf(InMonth(es, last), ByCategoryName) || k in KeysOf(InMonth(es, prev), ByCategoryName)
    ensures var cs := TrendCandidates(es, last, prev);
            forall j :: 0 <= j < |cs| ==>
              cs[j].lastAmt == CategoryTotal(InMonth(es, last), cs[j].category) &&
              cs[j].prevAmt == CategoryTotal(InMonth(es, prev), cs[j].category)
  {
    var lastBy := SumByCategory(es, last);
    var prevBy := SumByCategory(es, prev);
    SpreadKeys(lastBy, prevBy);
    forall k
      ensures k in TrendKeys(lastBy, prevBy) <==>
              k in KeysOf(InMonth(es, last), ByCategoryName) || k in KeysOf(InMonth(es, prev), ByCategoryName)
    {
      SumByCategoryGet(es, last, k);
      SumByCategoryGet(es, prev, k);
    }
    var keys := TrendKeys(lastBy, prevBy);
    forall j | 0 <= j < |keys|
      ensures GetOr(lastBy, keys[j], 0.0) == CategoryTotal(InMonth(es, last), keys[j])
      ensures GetOr(prevBy, keys[j], 0.0) == CategoryTotal(InMonth(es, prev), keys[j])
    {
      SumByCategoryGet(es, last, keys[j]);
      SumByCategoryGet(es, prev, keys[j]);
    }
  }

  /** The trend insight is absent exactly when no category was spent in
      either month with a non-zero total; otherwise it reports the first
      category with the largest absolute change, "increased" exactly when
      the change is positive (so an unchanged category reads "decreased"). */
  lemma {:induction false} CategoryTrendSpec(es: seq<Expense>, months: seq<string>)
    requires |months| >= 2
    ensures var cs := TrendCandidates(es, months[|months| - 1], months[|months| - 2]);
            var r := CategoryTrendInsight(es, months);
            && (r.None? <==> forall j :: 0 <= j < |cs| ==> !Counts(cs[j]))
            && (r.Some? ==> exists i :: 0 <= i < |cs| &&
                                        IsBiggest(cs, i, Change(r.value.category, Delta(cs[i]))) &&
                                        r.value.percent == Abs(Delta(cs[i])) &&
                                        (r.value.increased <==> Delta(cs[i]) > 0.0))
  {
    var cs := TrendCandidates(es, months[|months| - 1], months[|months| - 2]);
    BiggestChangeNone(cs);
    if BiggestChange(cs).Some? {
      var i := BiggestChangeWinner(cs);
    }
  }

  /** Compares the last two entries of `months`, the months in the order
      they first appear among the expenses (not chronological order). */
  function CategoryTrendInsight(es: seq<Expense>, months: seq<string>): (r: Option<CategoryTrend>)
    ensures |months| < 2 ==> r.None?
  {
    var n := |months|;
    if n < 2 then None
    else
      match BiggestChange(TrendCandidates(es, months[n - 1], months[n - 2]))
      case None => None
      case Some(c) => Some(CategoryTrend(c.category, Abs(c.diffPercent), c.diffPercent > 0.0))
  }

  /** Insight 4 as the source runs it: the two month sums, then the trend
      loop over the categories of either month. */
  method FindCategoryTrend(es: seq<Expense>, months: seq<string>) returns (categoryTrendInsight: Option<CategoryTrend>)
    ensures categoryTrendInsight == CategoryTrendInsight(es, months)
  {
    categoryTrendInsight := None;
    if |months| >= 2 {
      var last := months[|months| - 1];
      var prev := months[|months| - 2];
      var lastByCategory := SumByCategory(es, last);
      var prevByCategory := SumByCategory(es, prev);
      var biggestChange := FindBiggestChange(TrendKeys(lastByCategory, prevByCategory), lastByCategory, prevByCategory);
      if biggestChange.Some? {
        var c := biggestChange.value;
        categoryTrendInsight := Some(CategoryTrend(c.category, Abs(c.diffPercent), c.diffPercent > 0.0));
      }
    }
  }
}
