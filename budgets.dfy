/** Budget resolution: for each category of `byCategory`, the budget that
    applies in the current period, looked for as a monthly budget, then a
    quarterly one, then a yearly one, and the status computed from it. */
module Budgets {
  import opened Dict

  datatype PeriodType = Weekly | Monthly | Quarterly | Yearly

  /** A budget record: a limit for one category over one period instance. */
  datatype Budget = Budget(category: string, limit: real, periodType: PeriodType, periodKey: string)

  /** An entry of `budgetByCategory`. `percentUsed` is kept exact; the
      source rounds it to one decimal. */
  datatype BudgetStatus = BudgetStatus(
    limit: real,
    spent: real,
    remaining: real,
    percentUsed: real,
    overBudget: bool,
    source: PeriodType)

  /** The keys of the period containing the latest month with spending:
      its "Mon YYYY" label, its "Q{q}-YYYY" key and its year. */
  datatype CurrentPeriod = CurrentPeriod(month: string, quarter: string, year: string)

  /** The key a budget of type `t` must carry to apply in period `p`. */
  function KeyFor(p: CurrentPeriod, t: PeriodType): string
    requires t != Weekly
  {
    match t
    case Monthly => p.month
    case Quarterly => p.quarter
    case Yearly => p.year
  }

  predicate Matches(b: Budget, category: string, periodType: PeriodType, periodKey: string)
  {
    b.category == category && b.periodType == periodType && b.periodKey == periodKey
  }

  ghost predicate HasMatch(budgets: seq<Budget>, category: string, periodType: PeriodType, periodKey: string)
  {
    exists i :: 0 <= i < |budgets| && Matches(budgets[i], category, periodType, periodKey)
  }

  /** The first budget, in list order, for this category, period type and
      period key, if any. */
  function FindBudget(budgets: seq<Budget>, category: string, periodType: PeriodType, periodKey: string): (r: Option<Budget>)
    ensures r.None? <==> !HasMatch(budgets, category, periodType, periodKey)
    ensures r.Some? ==> exists i :: 0 <= i < |budgets| && budgets[i] == r.value &&
                          Matches(budgets[i], category, periodType, periodKey) &&
                          forall j :: 0 <= j < i ==> !Matches(budgets[j], category, periodType, periodKey)
  {
    if |budgets| == 0 then None
    else if Matches(budgets[0], category, periodType, periodKey) then Some(budgets[0])
    else
      var r := FindBudget(budgets[1..], category, periodType, periodKey);
      assert HasMatch(budgets, category, periodType, periodKey) <==> HasMatch(budgets[1..], category, periodType, periodKey) by {
        if HasMatch(budgets, category, periodType, periodKey) {
          var i :| 0 <= i < |budgets| && Matches(budgets[i], category, periodType, periodKey);
          assert budgets[1..][i - 1] == budgets[i];
        }
      }
      if r.Some? then
        var i :| 0 <= i < |budgets[1..]| && budgets[1..][i] == r.value &&
                 Matches(budgets[1..][i], category, periodType, periodKey) &&
                 forall j :: 0 <= j < i ==> !Matches(budgets[1..][j], category, periodType, periodKey);
        assert budgets[i + 1] == r.value;
        r
      else r
  }

  /** The budget that applies: a monthly budget for
      the current month wins over a quarterly one for the current quarter,
      which wins over a yearly one for the current year. */
  function EffectiveBudget(budgets: seq<Budget>, category: string, p: CurrentPeriod): (r: Option<Budget>)
    ensures r.None? <==> !HasMatch(budgets, category, Monthly, p.month) &&
                         !HasMatch(budgets, category, Quarterly, p.quarter) &&
                         !HasMatch(budgets, category, Yearly, p.year)
    ensures r.Some? && r.value.periodType == Monthly <==> HasMatch(budgets, category, Monthly, p.month)
    ensures r.Some? && r.value.periodType == Quarterly <==>
              !HasMatch(budgets, category, Monthly, p.month) && HasMatch(budgets, category, Quarterly, p.quarter)
    ensures r.Some? && r.value.periodType == Yearly <==>
              !HasMatch(budgets, category, Monthly, p.month) &&
              !HasMatch(budgets, category, Quarterly, p.quarter) &&
              HasMatch(budgets, category, Yearly, p.year)
    ensures r.Some? ==> r.value.periodType != Weekly &&
                        r == FindBudget(budgets, category, r.value.periodType, KeyFor(p, r.value.periodType))
  {
    var monthly := FindBudget(budgets, category, Monthly, p.month);
    var quarterly := FindBudget(budgets, category, Quarterly, p.quarter);
    var yearly := FindBudget(budgets, category, Yearly, p.year);
    if monthly.Some? then monthly else if quarterly.Some? then quarterly else yearly
  }

  /** The status of spending `spent` against `limit`. */
  function Status(limit: real, spent: real, source: PeriodType): (s: BudgetStatus)
    ensures s.limit == limit && s.spent == spent && s.source == source
    ensures s.remaining + spent == limit
    ensures s.overBudget <==> spent > limit
    ensures limit <= 0.0 ==> s.percentUsed == 0.0
    ensures spent >= 0.0 ==> 0.0 <= s.percentUsed <= 100.0
    ensures limit > 0.0 && spent >= limit ==> s.percentUsed == 100.0
    ensures limit > 0.0 && spent < limit ==> s.percentUsed * limit == spent * 100.0
  {
    RatioBounds(spent, limit);
    var percentUsed := if limit > 0.0 then Min(spent / limit * 100.0, 100.0) else 0.0;
    BudgetStatus(limit, spent, limit - spent, percentUsed, spent > limit, source)
  }

  /** The share of the limit spent, as a percentage, against a positive
      limit: non-negative for non-negative spending, and below 100 exactly
      when the spending is below the limit. */
  lemma {:induction false} RatioBounds(spent: real, limit: real)
    ensures limit > 0.0 ==> (spent / limit * 100.0) * limit == spent * 100.0
    ensures limit > 0.0 && spent >= 0.0 ==> spent / limit * 100.0 >= 0.0
    ensures limit > 0.0 ==> (spent / limit * 100.0 < 100.0 <==> spent < limit)
  {
    if limit <= 0.0 {
      return;
    }
    var q := spent / limit;
    assert q * limit == spent;
    assert (q * 100.0) * limit == (q * limit) * 100.0;
    if spent < limit {
      assert q * limit < 1.0 * limit;
      assert q < 1.0;
    } else {
      assert q * limit >= 1.0 * limit;
      assert q >= 1.0;
    }
  }

  function Min(a: real, b: real): real
  {
    if a <= b then a else b
  }

  /** What `budgetByCategory[category]` holds for a category that spent
      `Get(byCategory, category)`: nothing when it is not a key or has no
      applicable budget, else the status against the winning budget. */
  function Resolve(byCategory: Dict<real>, budgets: seq<Budget>, p: CurrentPeriod, category: string): Option<BudgetStatus>
  {
    match Get(byCategory, category)
    case None => None
    case Some(spent) =>
      match EffectiveBudget(budgets, category, p)
      case None => None
      case Some(b) => Some(Status(b.limit, spent, b.periodType))
  }

  /** The categories of `keys` that have an applicable budget, in order. */
  function WithBudget(keys: seq<string>, budgets: seq<Budget>, p: CurrentPeriod): (r: seq<string>)
    ensures forall k :: k in r <==> k in keys && EffectiveBudget(budgets, k, p).Some?
  {
    if |keys| == 0 then []
    else
      var pre := WithBudget(keys[..|keys| - 1], budgets, p);
      var k := keys[|keys| - 1];
      assert keys == keys[..|keys| - 1] + [k];
      if EffectiveBudget(budgets, k, p).Some? then pre + [k] else pre
  }

  /** The budget loop: for each entry of `byCategory`, in order, store the
      category's status when a budget applies to it. */
  function BudgetByCategory(byCategory: Dict<real>, budgets: seq<Budget>, p: CurrentPeriod): Dict<BudgetStatus>
  {
    if |byCategory| == 0 then []
    else
      var acc := BudgetByCategory(byCategory[..|byCategory| - 1], budgets, p);
      var (category, spent) := byCategory[|byCategory| - 1];
      match EffectiveBudget(budgets, category, p)
      case None => acc
      case Some(b) => Put(acc, category, Status(b.limit, spent, b.periodType))
  }

  lemma {:induction false} BudgetByCategoryKeys(byCategory: Dict<real>, budgets: seq<Budget>, p: CurrentPeriod)
    requires DistinctKeys(byCategory)
    ensures Keys(BudgetByCategory(byCategory, budgets, p)) == WithBudget(Keys(byCategory), budgets, p)
  {
    var n := |byCategory|;
    if n > 0 {
      var pre := byCategory[..n - 1];
      var acc := BudgetByCategory(pre, budgets, p);
      var (category, spent) := byCategory[n - 1];
      BudgetByCategoryKeys(pre, budgets, p);
      assert Keys(byCategory)[..n - 1] == Keys(pre);
      var b := EffectiveBudget(budgets, category, p);
      if b.Some? {
        assert category !in Keys(pre);
        PutKeys(acc, category, Status(b.value.limit, spent, b.value.periodType));
      }
    }
  }

  lemma {:induction false} BudgetByCategoryGet(byCategory: Dict<real>, budgets: seq<Budget>, p: CurrentPeriod, c: string)
    requires DistinctKeys(byCategory)
    ensures Get(BudgetByCategory(byCategory, budgets, p), c) == Resolve(byCategory, budgets, p, c)
  {
    var n := |byCategory|;
    if n > 0 {
      var pre := byCategory[..n - 1];
      var acc := BudgetByCategory(pre, budgets, p);
      var (category, spent) := byCategory[n - 1];
      BudgetByCategoryGet(pre, budgets, p, c);
      var b := EffectiveBudget(budgets, category, p);
      if b.Some? {
        PutSpec(acc, category, Status(b.value.limit, spent, b.value.periodType));
      }
      ByCategoryGetLast(byCategory, c);
    }
  }

  /** Reading an object with distinct keys: the last entry's key reads the
      last value, every other key reads as in the prefix. */
  lemma {:induction false} ByCategoryGetLast(d: Dict<real>, c: string)
    requires DistinctKeys(d) && |d| > 0
    ensures Get(d, c) == if c == d[|d| - 1].0 then Some(d[|d| - 1].1) else Get(d[..|d| - 1], c)
  {
    var n := |d|;
    var pre := d[..n - 1];
    assert d == Put(pre, d[n - 1].0, d[n - 1].1) by {
      assert forall j :: 0 <= j < n - 1 ==> pre[j].0 != d[n - 1].0;
      IndexOfSpec(pre, d[n - 1].0);
      assert IndexOf(pre, d[n - 1].0) == -1;
    }
    PutSpec(pre, d[n - 1].0, d[n - 1].1);
  }

  /** `budgetByCategory` has an entry exactly for the categories of
      `byCategory` that have an applicable budget, in the order of
      `byCategory`, holding the status against the winning budget. */
  lemma {:induction false} BudgetByCategorySpec(byCategory: Dict<real>, budgets: seq<Budget>, p: CurrentPeriod)
    requires DistinctKeys(byCategory)
    ensures Keys(BudgetByCategory(byCategory, budgets, p)) == WithBudget(Keys(byCategory), budgets, p)
    ensures forall c :: Get(BudgetByCategory(byCategory, budgets, p), c) == Resolve(byCategory, budgets, p, c)
  {
    BudgetByCategoryKeys(byCategory, budgets, p);
    forall c
      ensures Get(BudgetByCategory(byCategory, budgets, p), c) == Resolve(byCategory, budgets, p, c)
    {
      BudgetByCategoryGet(byCategory, budgets, p, c);
    }
  }

  /** What every entry of `budgetByCategory` satisfies: remaining and spent
      add up to the limit, the over-budget flag is the strict comparison,
      and the source is one of the three period types that are looked up. */
  predicate Consistent(s: BudgetStatus)
  {
    && s.remaining + s.spent == s.limit
    && (s.overBudget <==> s.spent > s.limit)
    && s.source != Weekly
  }

  lemma {:induction false} BudgetByCategoryConsistent(byCategory: Dict<real>, budgets: seq<Budget>, p: CurrentPeriod)
    ensures forall i :: 0 <= i < |BudgetByCategory(byCategory, budgets, p)| ==>
              Consistent(BudgetByCategory(byCategory, budgets, p)[i].1)
  {
    var n := |byCategory|;
    if n > 0 {
      var pre := byCategory[..n - 1];
      var acc := BudgetByCategory(pre, budgets, p);
      var (category, spent) := byCategory[n - 1];
      BudgetByCategoryConsistent(pre, budgets, p);
      var b := EffectiveBudget(budgets, category, p);
      if b.Some? {
        var st := Status(b.value.limit, spent, b.value.periodType);
        PutEntries(acc, category, st);
        var r := Put(acc, category, st);
        assert BudgetByCategory(byCategory, budgets, p) == r;
        assert Consistent(st);
        forall i | 0 <= i < |r|
          ensures Consistent(r[i].1)
        {
          if r[i] != (category, st) {
            var j :| 0 <= j < |acc| && acc[j] == r[i];
          }
        }
      }
    }
  }

  /** The budget merge as the source runs it: a loop over the entries of
      `byCategory` that fills `budgetByCategory` in place. */
  method FillBudgetByCategory(byCategory: Dict<real>, budgets: seq<Budget>, p: CurrentPeriod)
    returns (budgetByCategory: Dict<BudgetStatus>)
    ensures budgetByCategory == BudgetByCategory(byCategory, budgets, p)
  {
    budgetByCategory := [];
    for i := 0 to |byCategory|
      invariant budgetByCategory == BudgetByCategory(byCategory[..i], budgets, p)
    {
      var (category, spent) := byCategory[i];
      assert byCategory[..i + 1][..i] == byCategory[..i];
      var effective := EffectiveBudget(budgets, category, p);
      if effective.Some? {
        var b := effective.value;
        budgetByCategory := Put(budgetByCategory, category, Status(b.limit, spent, b.periodType));
      }
    }
    assert byCategory[..|byCategory|] == byCategory;
  }
}
