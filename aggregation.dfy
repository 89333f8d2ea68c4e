/** Aggregation: the total, the per-category totals driven by the category
    list, the per-month totals keyed by "Mon YYYY" labels, and the
    chronological ordering of those labels. */
module Aggregation {
  import opened Dict
  import opened Calendar

  /** The fields of an expense record that the analytics read. */
  datatype Expense = Expense(amount: real, category: string, date: Date)

  /** A category record; only its name is read. */
  datatype Category = Category(name: string)

  function CategoryOf(e: Expense): string
  {
    e.category
  }

  /** The month label of an expense's date. */
  function MonthLabelOf(e: Expense): string
  {
    Label(MonthOf(e.date))
  }

  /** The two keys the source groups expenses by: the category field and
      the month label of the date. */
  datatype Grouping = ByCategoryName | ByMonthLabel

  function KeyOf(g: Grouping, e: Expense): string
  {
    match g
    case ByCategoryName => CategoryOf(e)
    case ByMonthLabel => MonthLabelOf(e)
  }

  function Names(cats: seq<Category>): (ns: seq<string>)
    ensures |ns| == |cats| && forall i :: 0 <= i < |cats| ==> ns[i] == cats[i].name
  {
    seq(|cats|, i requires 0 <= i < |cats| => cats[i].name)
  }

  /** What a grouping reads from each expense: its key and its amount, in
      order. */
  function Keyed(es: seq<Expense>, g: Grouping): (ps: Dict<real>)
    ensures |ps| == |es|
    ensures forall i :: 0 <= i < |es| ==> ps[i] == (KeyOf(g, es[i]), es[i].amount)
  {
    if |es| == 0 then []
    else Keyed(es[..|es| - 1], g) + [(KeyOf(g, es[|es| - 1]), es[|es| - 1].amount)]
  }

  /** The key of every expense, in order. */
  function KeysOf(es: seq<Expense>, g: Grouping): (ks: seq<string>)
    ensures |ks| == |es| && forall i :: 0 <= i < |es| ==> ks[i] == KeyOf(g, es[i])
  {
    Keys(Keyed(es, g))
  }

  /** The distinct elements of `s`, in order of first appearance. */
  function Dedup(s: seq<string>): (r: seq<string>)
    ensures forall x :: x in r <==> x in s
    ensures forall i, j :: 0 <= i < j < |r| ==> r[i] != r[j]
  {
    if |s| == 0 then []
    else
      var d := Dedup(s[..|s| - 1]);
      assert s == s[..|s| - 1] + [s[|s| - 1]];
      if s[|s| - 1] in d then d else d + [s[|s| - 1]]
  }

  /** A sequence without repeats is its own set of distinct elements. */
  lemma {:induction false} DedupDistinct(s: seq<string>)
    requires forall i, j :: 0 <= i < j < |s| ==> s[i] != s[j]
    ensures Dedup(s) == s
  {
    if |s| > 0 {
      var n := |s|;
      DedupDistinct(s[..n - 1]);
      assert s[n - 1] !in s[..n - 1];
      assert s == s[..n - 1] + [s[n - 1]];
    }
  }

  /** The total spent: every expense's amount added up, starting from 0. */
  function Total(es: seq<Expense>): real
  {
    if |es| == 0 then 0.0 else Total(es[..|es| - 1]) + es[|es| - 1].amount
  }

  /** The summed amount of the expenses whose key equals `k`: the reference
      definition of one group's total. */
  function SumWhere(es: seq<Expense>, g: Grouping, k: string): real
  {
    if |es| == 0 then 0.0
    else SumWhere(es[..|es| - 1], g, k) + (if KeyOf(g, es[|es| - 1]) == k then es[|es| - 1].amount else 0.0)
  }

  /** The amount spent in category `name`, matched exactly by name. */
  function CategoryTotal(es: seq<Expense>, name: string): real
  {
    SumWhere(es, ByCategoryName, name)
  }

  /** The amount spent in the month labelled `monthLabel`. */
  function MonthTotal(es: seq<Expense>, monthLabel: string): real
  {
    SumWhere(es, ByMonthLabel, monthLabel)
  }

  /** The summed amount of the pairs with key `k`. */
  function SumKey(ps: Dict<real>, k: string): real
  {
    if |ps| == 0 then 0.0
    else SumKey(ps[..|ps| - 1], k) + (if ps[|ps| - 1].0 == k then ps[|ps| - 1].1 else 0.0)
  }

  /** A reduce into an object accumulator that groups amounts by key: each
      pair adds its amount to the key's running total, which starts at 0. */
  function Group(ps: Dict<real>): Dict<real>
  {
    if |ps| == 0 then []
    else
      var acc := Group(ps[..|ps| - 1]);
      var k := ps[|ps| - 1].0;
      Put(acc, k, GetOr(acc, k, 0.0) + ps[|ps| - 1].1)
  }

  /** The grouping reduce over the expenses, keyed by `g`: each expense adds
      its amount to the total of its key. */
  function GroupSum(es: seq<Expense>, g: Grouping): Dict<real>
  {
    Group(Keyed(es, g))
  }

  /** One more pair is one more step of the reduce. */
  lemma {:induction false} GroupStep(ps: Dict<real>, i: nat)
    requires i < |ps|
    ensures Group(ps[..i + 1]) == Put(Group(ps[..i]), ps[i].0, GetOr(Group(ps[..i]), ps[i].0, 0.0) + ps[i].1)
  {
    assert ps[..i + 1][..i] == ps[..i];
  }

  /** Appending an expense adds its amount to the sum of its own key. */
  lemma {:induction false} SumWhereSnoc(es: seq<Expense>, e: Expense, g: Grouping, k: string)
    ensures SumWhere(es + [e], g, k) == SumWhere(es, g, k) + if KeyOf(g, e) == k then e.amount else 0.0
  {
    assert (es + [e])[..|es|] == es;
  }

  /** Appending an expense adds its key to the keys met. */
  lemma {:induction false} KeysOfSnoc(es: seq<Expense>, e: Expense, g: Grouping)
    ensures KeysOf(es + [e], g) == KeysOf(es, g) + [KeyOf(g, e)]
  {
    var ks, ks' := KeysOf(es, g), KeysOf(es + [e], g);
    assert forall i :: 0 <= i < |es| ==> (es + [e])[i] == es[i];
    assert ks'[|es|] == KeyOf(g, e);
  }

  lemma {:induction false} SumKeyAbsent(ps: Dict<real>, k: string)
    requires k !in Keys(ps)
    ensures SumKey(ps, k) == 0.0
  {
    if |ps| > 0 {
      assert Keys(ps[..|ps| - 1]) == Keys(ps)[..|ps| - 1];
      SumKeyAbsent(ps[..|ps| - 1], k);
    }
  }

  lemma {:induction false} GroupKeys(ps: Dict<real>)
    ensures Keys(Group(ps)) == Dedup(Keys(ps))
  {
    if |ps| > 0 {
      var n := |ps|;
      var pre := ps[..n - 1];
      var acc := Group(pre);
      var k := ps[n - 1].0;
      GroupKeys(pre);
      assert Group(ps) == Put(acc, k, GetOr(acc, k, 0.0) + ps[n - 1].1);
      assert Keys(ps) == Keys(pre) + [k];
      assert Keys(ps)[..n - 1] == Keys(pre);
      PutKeys(acc, k, GetOr(acc, k, 0.0) + ps[n - 1].1);
    }
  }

  lemma {:induction false} GroupDistinct(ps: Dict<real>)
    ensures DistinctKeys(Group(ps))
  {
    if |ps| > 0 {
      var n := |ps|;
      var acc := Group(ps[..n - 1]);
      var k, amount := ps[n - 1].0, ps[n - 1].1;
      GroupDistinct(ps[..n - 1]);
      PutDistinct(acc, k, GetOr(acc, k, 0.0) + amount);
    }
  }

  lemma {:induction false} GroupGet(ps: Dict<real>, q: string)
    ensures Get(Group(ps), q) == if q in Keys(ps) then Some(SumKey(ps, q)) else None
  {
    if |ps| > 0 {
      var n := |ps|;
      var pre := ps[..n - 1];
      var acc := Group(pre);
      var k, amount := ps[n - 1].0, ps[n - 1].1;
      GroupGet(pre, q);
      assert Keys(ps) == Keys(pre) + [k];
      GetPut(acc, k, GetOr(acc, k, 0.0) + amount, q);
      if q == k && k !in Keys(pre) {
        SumKeyAbsent(pre, k);
      }
    }
  }

  lemma {:induction false} GroupTotal(ps: Dict<real>)
    ensures SumValues(Group(ps)) == SumValues(ps)
  {
    if |ps| > 0 {
      var n := |ps|;
      var pre := ps[..n - 1];
      var acc := Group(pre);
      var k := ps[n - 1].0;
      GroupTotal(pre);
      assert Group(ps) == Put(acc, k, GetOr(acc, k, 0.0) + ps[n - 1].1);
      SumValuesAdd(acc, k, ps[n - 1].1);
      assert SumValues(ps) == SumValues(pre) + ps[n - 1].1;
    }
  }

  /** Summing the pairs of a key is summing the expenses of that key. */
  lemma {:induction false} SumKeyKeyed(es: seq<Expense>, g: Grouping, k: string)
    ensures SumKey(Keyed(es, g), k) == SumWhere(es, g, k)
  {
    if |es| > 0 {
      var n := |es|;
      SumKeyKeyed(es[..n - 1], g, k);
      assert Keyed(es, g)[..n - 1] == Keyed(es[..n - 1], g);
    }
  }

  /** The amounts of the pairs add up to the total. */
  lemma {:induction false} SumValuesKeyed(es: seq<Expense>, g: Grouping)
    ensures SumValues(Keyed(es, g)) == Total(es)
  {
    if |es| > 0 {
      var n := |es|;
      SumValuesKeyed(es[..n - 1], g);
      assert Keyed(es, g)[..n - 1] == Keyed(es[..n - 1], g);
    }
  }

  lemma {:induction false} GroupSumKeys(es: seq<Expense>, g: Grouping)
    ensures Keys(GroupSum(es, g)) == Dedup(KeysOf(es, g))
  {
    GroupKeys(Keyed(es, g));
  }

  lemma {:induction false} GroupSumDistinct(es: seq<Expense>, g: Grouping)
    ensures DistinctKeys(GroupSum(es, g))
  {
    GroupDistinct(Keyed(es, g));
  }

  lemma {:induction false} GroupSumGet(es: seq<Expense>, g: Grouping, q: string)
    ensures Get(GroupSum(es, g), q) ==
            if q in KeysOf(es, g) then Some(SumWhere(es, g, q)) else None
  {
    GroupGet(Keyed(es, g), q);
    SumKeyKeyed(es, g, q);
  }

  lemma {:induction false} GroupSumTotal(es: seq<Expense>, g: Grouping)
    ensures SumValues(GroupSum(es, g)) == Total(es)
  {
    GroupTotal(Keyed(es, g));
    SumValuesKeyed(es, g);
  }

  /** The grouping reduce has one key per distinct key of the expenses, in
      order of first appearance; each key maps to the amount summed over
      its expenses; and the values add up to the total. */
  lemma {:induction false} GroupSumSpec(es: seq<Expense>, g: Grouping)
    ensures Keys(GroupSum(es, g)) == Dedup(KeysOf(es, g))
    ensures DistinctKeys(GroupSum(es, g))
    ensures forall k :: Get(GroupSum(es, g), k) ==
                        if k in KeysOf(es, g) then Some(SumWhere(es, g, k)) else None
    ensures SumValues(GroupSum(es, g)) == Total(es)
  {
    GroupSumKeys(es, g);
    GroupSumDistinct(es, g);
    GroupSumTotal(es, g);
    forall k
      ensures Get(GroupSum(es, g), k) ==
              if k in KeysOf(es, g) then Some(SumWhere(es, g, k)) else None
    {
      GroupSumGet(es, g, k);
    }
  }

  /** `byCategory`: for each category in the list, the entry under its name
      is the amount spent under exactly that name. */
  function ByCategory(cats: seq<Category>, es: seq<Expense>): Dict<real>
  {
    if |cats| == 0 then []
    else
      var acc := ByCategory(cats[..|cats| - 1], es);
      var name := cats[|cats| - 1].name;
      Put(acc, name, CategoryTotal(es, name))
  }

  lemma {:induction false} ByCategoryKeys(cats: seq<Category>, es: seq<Expense>)
    ensures Keys(ByCategory(cats, es)) == Dedup(Names(cats))
  {
    if |cats| > 0 {
      var n := |cats|;
      var name := cats[n - 1].name;
      var ns := Names(cats);
      ByCategoryKeys(cats[..n - 1], es);
      PutKeys(ByCategory(cats[..n - 1], es), name, CategoryTotal(es, name));
      assert ns[..n - 1] == Names(cats[..n - 1]) && ns[n - 1] == name;
      assert Dedup(ns) == if name in Dedup(ns[..n - 1]) then Dedup(ns[..n - 1]) else Dedup(ns[..n - 1]) + [name];
    }
  }

  lemma {:induction false} ByCategoryDistinct(cats: seq<Category>, es: seq<Expense>)
    ensures DistinctKeys(ByCategory(cats, es))
  {
    if |cats| > 0 {
      var n := |cats|;
      var name := cats[n - 1].name;
      ByCategoryDistinct(cats[..n - 1], es);
      PutDistinct(ByCategory(cats[..n - 1], es), name, CategoryTotal(es, name));
    }
  }

  lemma {:induction false} ByCategoryGet(cats: seq<Category>, es: seq<Expense>, q: string)
    ensures Get(ByCategory(cats, es), q) ==
            if q in Names(cats) then Some(CategoryTotal(es, q)) else None
  {
    if |cats| > 0 {
      var n := |cats|;
      var name := cats[n - 1].name;
      ByCategoryGet(cats[..n - 1], es, q);
      GetPut(ByCategory(cats[..n - 1], es), name, CategoryTotal(es, name), q);
      assert Names(cats) == Names(cats[..n - 1]) + [name];
    }
  }

  /** The keys of `byCategory` are exactly the category names, zero-filled:
      each maps to the amount of the expenses carrying exactly that name. */
  lemma {:induction false} ByCategorySpec(cats: seq<Category>, es: seq<Expense>)
    ensures Keys(ByCategory(cats, es)) == Dedup(Names(cats))
    ensures DistinctKeys(ByCategory(cats, es))
    ensures forall k :: Get(ByCategory(cats, es), k) ==
                        if k in Names(cats) then Some(CategoryTotal(es, k)) else None
  {
    ByCategoryKeys(cats, es);
    ByCategoryDistinct(cats, es);
    forall k
      ensures Get(ByCategory(cats, es), k) ==
              if k in Names(cats) then Some(CategoryTotal(es, k)) else None
    {
      ByCategoryGet(cats, es, k);
    }
  }

  /** Sum of the category totals of the names in `ks`. */
  function SumOver(ks: seq<string>, es: seq<Expense>): real
  {
    if |ks| == 0 then 0.0 else SumOver(ks[..|ks| - 1], es) + CategoryTotal(es, ks[|ks| - 1])
  }

  lemma {:induction false} SumOverAppend(ks: seq<string>, es: seq<Expense>, e: Expense)
    requires forall i, j :: 0 <= i < j < |ks| ==> ks[i] != ks[j]
    ensures SumOver(ks, es + [e]) == SumOver(ks, es) + (if e.category in ks then e.amount else 0.0)
  {
    if |ks| > 0 {
      var m := |ks|;
      SumOverAppend(ks[..m - 1], es, e);
      assert (es + [e])[..|es|] == es;
      assert e.category in ks <==> e.category in ks[..m - 1] || e.category == ks[m - 1];
    }
  }

  lemma {:induction false} SumOverCovers(ks: seq<string>, es: seq<Expense>)
    requires forall i, j :: 0 <= i < j < |ks| ==> ks[i] != ks[j]
    requires forall i :: 0 <= i < |es| ==> es[i].category in ks
    ensures SumOver(ks, es) == Total(es)
  {
    if |es| == 0 {
      SumOverZero(ks);
    } else {
      var n := |es|;
      SumOverCovers(ks, es[..n - 1]);
      SumOverAppend(ks, es[..n - 1], es[n - 1]);
      assert es[..n - 1] + [es[n - 1]] == es;
    }
  }

  lemma {:induction false} SumOverZero(ks: seq<string>)
    ensures SumOver(ks, []) == 0.0
  {
    if |ks| > 0 {
      SumOverZero(ks[..|ks| - 1]);
    }
  }

  lemma {:induction false} SumValuesOfTotals(d: Dict<real>, es: seq<Expense>)
    requires forall i :: 0 <= i < |d| ==> d[i].1 == CategoryTotal(es, d[i].0)
    ensures SumValues(d) == SumOver(Keys(d), es)
  {
    if |d| > 0 {
      SumValuesOfTotals(d[..|d| - 1], es);
      assert Keys(d)[..|d| - 1] == Keys(d[..|d| - 1]);
    }
  }

  /** When every expense names a listed category, the category totals add
      up to the total amount: no expense is counted twice or missed. */
  lemma {:induction false} CategoryTotalsCoverTotal(cats: seq<Category>, es: seq<Expense>)
    requires forall i :: 0 <= i < |es| ==> es[i].category in Names(cats)
    ensures SumValues(ByCategory(cats, es)) == Total(es)
  {
    var d := ByCategory(cats, es);
    ByCategorySpec(cats, es);
    forall i | 0 <= i < |d|
      ensures d[i].1 == CategoryTotal(es, d[i].0)
    {
      GetAt(d, i);
      assert d[i].0 in Names(cats) by { assert Keys(d)[i] == d[i].0; }
    }
    SumValuesOfTotals(d, es);
    SumOverCovers(Keys(d), es);
  }

  /** `byMonth`: the month totals, keyed by label in order of first appearance. */
  function ByMonth(es: seq<Expense>): Dict<real>
  {
    GroupSum(es, ByMonthLabel)
  }

  lemma {:induction false} ByMonthKey(es: seq<Expense>, l: string)
    ensures l in Keys(ByMonth(es)) <==> exists i :: 0 <= i < |es| && MonthLabelOf(es[i]) == l
  {
    GroupSumKeys(es, ByMonthLabel);
    var ks := KeysOf(es, ByMonthLabel);
    assert l in Keys(ByMonth(es)) <==> l in ks;
    if l in ks {
      var i :| 0 <= i < |ks| && ks[i] == l;
      assert MonthLabelOf(es[i]) == l;
    }
  }

  lemma {:induction false} ByMonthGet(es: seq<Expense>, l: string)
    ensures Get(ByMonth(es), l) == if l in Keys(ByMonth(es)) then Some(MonthTotal(es, l)) else None
  {
    GroupSumGet(es, ByMonthLabel, l);
    GroupSumKeys(es, ByMonthLabel);
  }

  /** Reading `byMonth` with a default of 0 gives the month's total. */
  lemma {:induction false} ByMonthGetOr(es: seq<Expense>, l: string)
    ensures GetOr(ByMonth(es), l, 0.0) == MonthTotal(es, l)
  {
    ByMonthGet(es, l);
    if l !in Keys(ByMonth(es)) {
      GroupSumKeys(es, ByMonthLabel);
      SumKeyAbsent(Keyed(es, ByMonthLabel), l);
      SumKeyKeyed(es, ByMonthLabel, l);
    }
  }

  /** The month of every expense is a key of `byMonth`. */
  lemma {:induction false} ByMonthHas(es: seq<Expense>, i: nat)
    requires i < |es|
    ensures MonthLabelOf(es[i]) in Keys(ByMonth(es))
  {
    ByMonthKey(es, MonthLabelOf(es[i]));
  }

  /** Every key of `byMonth` is the month of some expense. */
  lemma {:induction false} ByMonthWitness(es: seq<Expense>, l: string) returns (t: nat)
    requires l in Keys(ByMonth(es))
    ensures t < |es| && MonthLabelOf(es[t]) == l
  {
    ByMonthKey(es, l);
    t :| 0 <= t < |es| && MonthLabelOf(es[t]) == l;
  }

  /** `byMonth` has a key exactly for each month with an expense, holding
      that month's total, and its values add up to the total amount. */
  lemma {:induction false} ByMonthSpec(es: seq<Expense>)
    ensures DistinctKeys(ByMonth(es))
    ensures forall l :: l in Keys(ByMonth(es)) <==> exists i :: 0 <= i < |es| && MonthLabelOf(es[i]) == l
    ensures forall l :: Get(ByMonth(es), l) ==
                        if l in Keys(ByMonth(es)) then Some(MonthTotal(es, l)) else None
    ensures SumValues(ByMonth(es)) == Total(es)
  {
    GroupSumDistinct(es, ByMonthLabel);
    GroupSumTotal(es, ByMonthLabel);
    forall l
      ensures l in Keys(ByMonth(es)) <==> exists i :: 0 <= i < |es| && MonthLabelOf(es[i]) == l
    {
      ByMonthKey(es, l);
    }
    forall l
      ensures Get(ByMonth(es), l) == if l in Keys(ByMonth(es)) then Some(MonthTotal(es, l)) else None
    {
      ByMonthGet(es, l);
    }
  }

  /** One entry of `sortedMonths`: a label and the month it parses to. */
  datatype MonthEntry = MonthEntry(monthLabel: string, key: MonthKey)

  ghost predicate SortedByDate(s: seq<MonthEntry>)
  {
    forall i, j :: 0 <= i < j < |s| ==> Ordinal(s[i].key) <= Ordinal(s[j].key)
  }

  function Insert(x: MonthEntry, s: seq<MonthEntry>): (r: seq<MonthEntry>)
    requires SortedByDate(s)
    ensures SortedByDate(r)
    ensures multiset(r) == multiset(s) + multiset{x}
    ensures r[0] == x || (|s| > 0 && r[0] == s[0])
  {
    if |s| == 0 then [x]
    else if Ordinal(x.key) <= Ordinal(s[0].key) then [x] + s
    else
      var r' := Insert(x, s[1..]);
      assert s == [s[0]] + s[1..];
      assert Ordinal(s[0].key) <= Ordinal(r'[0].key);
      [s[0]] + r'
  }

  /** The sort of the month entries by their parsed date, ascending. The labels
      are distinct and so are their months, so any sort agrees with this one. */
  function SortByDate(s: seq<MonthEntry>): (r: seq<MonthEntry>)
    ensures SortedByDate(r)
    ensures multiset(r) == multiset(s)
  {
    if |s| == 0 then []
    else
      assert s == s[..|s| - 1] + [s[|s| - 1]];
      Insert(s[|s| - 1], SortByDate(s[..|s| - 1]))
  }

  /** Each month label paired with the month it parses to. */
  function MonthEntries(months: seq<string>): (r: seq<MonthEntry>)
    requires forall i :: 0 <= i < |months| ==> ParseLabel(months[i]).Some?
    ensures |r| == |months|
    ensures forall i :: 0 <= i < |r| ==> r[i].monthLabel == months[i] && ParseLabel(months[i]) == Some(r[i].key)
  {
    seq(|months|, i requires 0 <= i < |months| => MonthEntry(months[i], ParseLabel(months[i]).value))
  }

  /** Every key of `byMonth` is a label of some expense's month, so it parses. */
  lemma {:induction false} MonthsParse(es: seq<Expense>)
    ensures forall i :: 0 <= i < |Keys(ByMonth(es))| ==>
              ParseLabel(Keys(ByMonth(es))[i]).Some?
  {
    forall i | 0 <= i < |Keys(ByMonth(es))|
      ensures ParseLabel(Keys(ByMonth(es))[i]).Some?
    {
      var l := Keys(ByMonth(es))[i];
      var j := ByMonthWitness(es, l);
      LabelRoundTrip(MonthOf(es[j].date));
    }
  }

  /** `sortedMonths`: the months of `byMonth` in chronological order. */
  function SortedMonths(es: seq<Expense>): (r: seq<MonthEntry>)
    ensures |es| > 0 ==> |r| > 0
  {
    var months := Keys(ByMonth(es));
    MonthsParse(es);
    var entries := MonthEntries(months);
    var r := SortByDate(entries);
    assert |es| > 0 ==> entries[0] in multiset(r);
    r
  }

  /** `sortedMonths` is in ascending chronological order. */
  lemma {:induction false} SortedMonthsSorted(es: seq<Expense>)
    ensures SortedByDate(SortedMonths(es))
  {
  }

  /** `sortedMonths` has one entry per key of `byMonth`. */
  lemma {:induction false} SortedMonthsLength(es: seq<Expense>)
    ensures |SortedMonths(es)| == |Keys(ByMonth(es))|
  {
    var r := SortedMonths(es);
    MonthsParse(es);
    var entries := MonthEntries(Keys(ByMonth(es)));
    assert r == SortByDate(entries);
    calc {
      |r|;
      |multiset(r)|;
      |multiset(entries)|;
      |entries|;
    }
  }

  /** Each entry of `sortedMonths` is a key of `byMonth`, and that key is
      the label of the entry's month. */
  lemma {:induction false} SortedMonthsLabels(es: seq<Expense>)
    ensures forall i :: 0 <= i < |SortedMonths(es)| ==>
              SortedMonths(es)[i].monthLabel == Label(SortedMonths(es)[i].key) &&
              SortedMonths(es)[i].monthLabel in Keys(ByMonth(es))
  {
    var r := SortedMonths(es);
    var months := Keys(ByMonth(es));
    MonthsParse(es);
    var entries := MonthEntries(months);
    assert r == SortByDate(entries);
    forall i | 0 <= i < |r|
      ensures r[i].monthLabel == Label(r[i].key) && r[i].monthLabel in months
    {
      assert r[i] in multiset(entries);
      var j :| 0 <= j < |entries| && entries[j] == r[i];
      assert months[j] in months;
      var t := ByMonthWitness(es, months[j]);
      LabelRoundTrip(MonthOf(es[t].date));
    }
  }

  /** The month of every expense has its entry in `sortedMonths`. */
  lemma {:induction false} SortedMonthsCover(es: seq<Expense>)
    ensures forall i :: 0 <= i < |es| ==>
              MonthEntry(MonthLabelOf(es[i]), MonthOf(es[i].date)) in SortedMonths(es)
  {
    var r := SortedMonths(es);
    var months := Keys(ByMonth(es));
    MonthsParse(es);
    var entries := MonthEntries(months);
    assert r == SortByDate(entries);
    forall i | 0 <= i < |es|
      ensures MonthEntry(MonthLabelOf(es[i]), MonthOf(es[i].date)) in r
    {
      var l := MonthLabelOf(es[i]);
      ByMonthHas(es, i);
      var j :| 0 <= j < |months| && months[j] == l;
      LabelRoundTrip(MonthOf(es[i].date));
      assert entries[j] == MonthEntry(l, MonthOf(es[i].date));
      assert entries[j] in multiset(r);
    }
  }

  /** `sortedMonths` lists each month with an expense once, labelled by its
      own label, in ascending chronological order. */
  lemma {:induction false} SortedMonthsSpec(es: seq<Expense>)
    ensures SortedByDate(SortedMonths(es))
    ensures |SortedMonths(es)| == |Keys(ByMonth(es))|
    ensures forall i :: 0 <= i < |SortedMonths(es)| ==>
              SortedMonths(es)[i].monthLabel == Label(SortedMonths(es)[i].key) &&
              SortedMonths(es)[i].monthLabel in Keys(ByMonth(es))
    ensures forall i :: 0 <= i < |es| ==>
              MonthEntry(MonthLabelOf(es[i]), MonthOf(es[i].date)) in SortedMonths(es)
  {
    SortedMonthsSorted(es);
    SortedMonthsLength(es);
    SortedMonthsLabels(es);
    SortedMonthsCover(es);
  }

  /** `currentMonth`, the last of `sortedMonths`, is the latest month in
      which anything was spent. */
  lemma {:induction false} LatestMonth(es: seq<Expense>)
    requires |es| > 0
    ensures forall i :: 0 <= i < |es| ==> Ordinal(MonthOf(es[i].date)) <= Ordinal(CurrentMonthKey(es))
    ensures exists i :: 0 <= i < |es| && MonthOf(es[i].date) == CurrentMonthKey(es)
  {
    var r := SortedMonths(es);
    SortedMonthsSorted(es);
    SortedMonthsCover(es);
    SortedMonthsLabels(es);
    forall i | 0 <= i < |es|
      ensures Ordinal(MonthOf(es[i].date)) <= Ordinal(r[|r| - 1].key)
    {
      var x := MonthEntry(MonthLabelOf(es[i]), MonthOf(es[i].date));
      var j :| 0 <= j < |r| && r[j] == x;
    }
    var last := r[|r| - 1];
    var t := ByMonthWitness(es, last.monthLabel);
    LabelInjective(MonthOf(es[t].date), last.key);
  }

  /** An element of a sequence without repeats occurs in it at most once. */
  lemma {:induction false} DistinctCount(s: seq<MonthEntry>, x: MonthEntry)
    requires forall i, j :: 0 <= i < j < |s| ==> s[i] != s[j]
    ensures multiset(s)[x] <= 1
  {
    if |s| > 0 {
      var n := |s|;
      DistinctCount(s[..n - 1], x);
      assert s == s[..n - 1] + [s[n - 1]];
      assert s[n - 1] !in s[..n - 1];
    }
  }

  /** An element found at two positions occurs at least twice. */
  lemma {:induction false} RepeatCount(s: seq<MonthEntry>, i: int, j: int)
    requires 0 <= i < j < |s| && s[i] == s[j]
    ensures multiset(s)[s[i]] >= 2
  {
    assert s == s[..j] + [s[j]] + s[j + 1..];
    assert s[i] in s[..j];
  }

  /** A sorted permutation of entries without repeats, each labelled by its
      own month, is strictly ascending. */
  lemma {:induction false} SortedPermutationStrict(r: seq<MonthEntry>, entries: seq<MonthEntry>)
    requires SortedByDate(r) && multiset(r) == multiset(entries)
    requires forall i, j :: 0 <= i < j < |entries| ==> entries[i] != entries[j]
    requires forall i :: 0 <= i < |r| ==> r[i].monthLabel == Label(r[i].key)
    ensures forall i, j :: 0 <= i < j < |r| ==> Ordinal(r[i].key) < Ordinal(r[j].key)
  {
    forall i, j | 0 <= i < j < |r|
      ensures Ordinal(r[i].key) < Ordinal(r[j].key)
    {
      assert r[i] != r[j] by {
        if r[i] == r[j] {
          RepeatCount(r, i, j);
          DistinctCount(entries, r[i]);
          assert false;
        }
      }
      OrdinalChronological(r[i].key, r[j].key);
    }
  }

  /** `sortedMonths` is strictly ascending: its months are distinct. */
  lemma {:induction false} SortedMonthsStrict(es: seq<Expense>)
    ensures forall i, j :: 0 <= i < j < |SortedMonths(es)| ==>
              Ordinal(SortedMonths(es)[i].key) < Ordinal(SortedMonths(es)[j].key)
  {
    var months := Keys(ByMonth(es));
    MonthsParse(es);
    GroupSumDistinct(es, ByMonthLabel);
    SortedMonthsSorted(es);
    SortedMonthsLabels(es);
    var entries := MonthEntries(months);
    assert SortedMonths(es) == SortByDate(entries);
    forall i, j | 0 <= i < j < |entries|
      ensures entries[i] != entries[j]
    {
      assert entries[i].monthLabel == ByMonth(es)[i].0;
      assert entries[j].monthLabel == ByMonth(es)[j].0;
    }
    SortedPermutationStrict(SortedMonths(es), entries);
  }

  /** All expenses fall in one calendar month (vacuously so when there are none). */
  ghost predicate SingleMonth(es: seq<Expense>)
  {
    forall i, j :: 0 <= i < |es| && 0 <= j < |es| ==> MonthOf(es[i].date) == MonthOf(es[j].date)
  }

  lemma {:induction false} TwoDistinct(ks: seq<string>, a: string, b: string)
    requires a in ks && b in ks && a != b
    ensures |ks| >= 2
  {
  }

  /** `byMonth` has two or more keys exactly when the expenses span two or
      more months. */
  lemma {:induction false} TwoMonths(es: seq<Expense>)
    ensures |Keys(ByMonth(es))| >= 2 <==> !SingleMonth(es)
  {
    var ks := Keys(ByMonth(es));
    if !SingleMonth(es) {
      var i, j :| 0 <= i < |es| && 0 <= j < |es| && MonthOf(es[i].date) != MonthOf(es[j].date);
      LabelInjective(MonthOf(es[i].date), MonthOf(es[j].date));
      ByMonthHas(es, i);
      ByMonthHas(es, j);
      TwoDistinct(ks, MonthLabelOf(es[i]), MonthLabelOf(es[j]));
    }
    if |ks| >= 2 {
      GroupSumDistinct(es, ByMonthLabel);
      assert ks[0] == ByMonth(es)[0].0 && ks[1] == ByMonth(es)[1].0;
      var i := ByMonthWitness(es, ks[0]);
      var j := ByMonthWitness(es, ks[1]);
      assert MonthOf(es[i].date) != MonthOf(es[j].date);
    }
  }

  /** The month of `currentMonth`: the last entry of `sortedMonths`. */
  function CurrentMonthKey(es: seq<Expense>): MonthKey
    requires |es| > 0
  {
    var r := SortedMonths(es);
    r[|r| - 1].key
  }

  /** The month of the entry before the last in `sortedMonths`. */
  function PreviousMonthKey(es: seq<Expense>): MonthKey
    requires !SingleMonth(es)
  {
    TwoMonths(es);
    SortedMonthsLength(es);
    var r := SortedMonths(es);
    r[|r| - 2].key
  }

  /** In entries strictly ordered by month, an entry earlier than the last
      is no later than the one before the last. */
  lemma {:induction false} StrictlySortedBelowLast(r: seq<MonthEntry>, x: MonthEntry)
    requires |r| >= 2 && x in r
    requires forall i, j :: 0 <= i < j < |r| ==> Ordinal(r[i].key) < Ordinal(r[j].key)
    requires Ordinal(x.key) < Ordinal(r[|r| - 1].key)
    ensures Ordinal(x.key) <= Ordinal(r[|r| - 2].key)
  {
    var n := |r|;
    var j :| 0 <= j < n && r[j] == x;
    if j < n - 2 {
      assert Ordinal(r[j].key) < Ordinal(r[n - 2].key);
    }
  }

  /** The month before the last in `sortedMonths` precedes the current month. */
  lemma {:induction false} PreviousBeforeCurrent(es: seq<Expense>)
    requires !SingleMonth(es)
    ensures Ordinal(PreviousMonthKey(es)) < Ordinal(CurrentMonthKey(es))
  {
    TwoMonths(es);
    SortedMonthsLength(es);
    SortedMonthsStrict(es);
    var r := SortedMonths(es);
    assert Ordinal(r[|r| - 2].key) < Ordinal(r[|r| - 1].key);
  }

  /** Some expense falls in the month before the last in `sortedMonths`. */
  lemma {:induction false} PreviousHasExpense(es: seq<Expense>)
    requires !SingleMonth(es)
    ensures exists i :: 0 <= i < |es| && MonthOf(es[i].date) == PreviousMonthKey(es)
  {
    TwoMonths(es);
    SortedMonthsLength(es);
    SortedMonthsLabels(es);
    var r := SortedMonths(es);
    var pk := r[|r| - 2].key;
    assert r[|r| - 2].monthLabel == Label(pk) && r[|r| - 2].monthLabel in Keys(ByMonth(es));
    var t := ByMonthWitness(es, r[|r| - 2].monthLabel);
    LabelInjective(MonthOf(es[t].date), pk);
    assert MonthOf(es[t].date) == PreviousMonthKey(es);
  }

  /** The current and previous months are the last two entries of `sortedMonths`. */
  lemma {:induction false} LastTwoMonths(es: seq<Expense>) returns (r: seq<MonthEntry>)
    requires !SingleMonth(es)
    ensures r == SortedMonths(es) && |r| >= 2
    ensures CurrentMonthKey(es) == r[|r| - 1].key && PreviousMonthKey(es) == r[|r| - 2].key
  {
    TwoMonths(es);
    SortedMonthsLength(es);
    r := SortedMonths(es);
  }

  /** The labels of the last two entries of `sortedMonths` name the
      current and the previous month. */
  lemma {:induction false} LastTwoLabels(es: seq<Expense>)
    requires !SingleMonth(es)
    ensures var r := SortedMonths(es);
            |r| >= 2 && r[|r| - 1].monthLabel == Label(CurrentMonthKey(es)) &&
            r[|r| - 2].monthLabel == Label(PreviousMonthKey(es))
  {
    var r := LastTwoMonths(es);
    SortedMonthsLabels(es);
    assert r[|r| - 1].monthLabel == Label(r[|r| - 1].key);
    assert r[|r| - 2].monthLabel == Label(r[|r| - 2].key);
  }

  /** An expense earlier than the current month is no later than the
      previous month. */
  lemma {:induction false} EarlierIsNoLaterThanPrevious(es: seq<Expense>, i: nat)
    requires !SingleMonth(es) && i < |es|
    requires Ordinal(MonthOf(es[i].date)) < Ordinal(CurrentMonthKey(es))
    ensures Ordinal(MonthOf(es[i].date)) <= Ordinal(PreviousMonthKey(es))
  {
    var r := LastTwoMonths(es);
    SortedMonthsStrict(es);
    SortedMonthsCover(es);
    var x := MonthEntry(MonthLabelOf(es[i]), MonthOf(es[i].date));
    assert x in r;
    StrictlySortedBelowLast(r, x);
  }

  /** No month with spending lies strictly between the previous and the
      current month. */
  lemma {:induction false} NothingBetweenPreviousAndCurrent(es: seq<Expense>)
    requires !SingleMonth(es)
    ensures forall i :: 0 <= i < |es| && Ordinal(MonthOf(es[i].date)) < Ordinal(CurrentMonthKey(es)) ==>
              Ordinal(MonthOf(es[i].date)) <= Ordinal(PreviousMonthKey(es))
  {
    forall i | 0 <= i < |es| && Ordinal(MonthOf(es[i].date)) < Ordinal(CurrentMonthKey(es))
      ensures Ordinal(MonthOf(es[i].date)) <= Ordinal(PreviousMonthKey(es))
    {
      EarlierIsNoLaterThanPrevious(es, i);
    }
  }

  /** The month before the last in `sortedMonths` is the latest month with
      spending that precedes the current month. */
  lemma {:induction false} PreviousMonthIsLatestBefore(es: seq<Expense>)
    requires !SingleMonth(es)
    ensures Ordinal(PreviousMonthKey(es)) < Ordinal(CurrentMonthKey(es))
    ensures exists i :: 0 <= i < |es| && MonthOf(es[i].date) == PreviousMonthKey(es)
    ensures forall i :: 0 <= i < |es| && Ordinal(MonthOf(es[i].date)) < Ordinal(CurrentMonthKey(es)) ==>
              Ordinal(MonthOf(es[i].date)) <= Ordinal(PreviousMonthKey(es))
  {
    PreviousBeforeCurrent(es);
    PreviousHasExpense(es);
    NothingBetweenPreviousAndCurrent(es);
  }

  /** The byCategory fill: a loop over the categories that stores each one's
      total under its name. */
  method FillByCategory(categories: seq<Category>, expenses: seq<Expense>) returns (byCategory: Dict<real>)
    ensures byCategory == ByCategory(categories, expenses)
  {
    byCategory := [];
    for i := 0 to |categories|
      invariant byCategory == ByCategory(categories[..i], expenses)
    {
      var cat := categories[i];
      var total := CategoryTotal(expenses, cat.name);
      assert categories[..i + 1][..i] == categories[..i];
      byCategory := Put(byCategory, cat.name, total);
    }
    assert categories[..|categories|] == categories;
  }

  /** The grouping reduce with a mutated accumulator, as a loop over the
      (key, amount) pair that the reduce body reads from each expense. */
  method GroupTotals(ps: Dict<real>) returns (acc: Dict<real>)
    ensures acc == Group(ps)
  {
    acc := [];
    for i := 0 to |ps|
      invariant acc == Group(ps[..i])
    {
      var (k, amount) := ps[i];
      GroupStep(ps, i);
      acc := Put(acc, k, GetOr(acc, k, 0.0) + amount);
    }
    assert ps[..|ps|] == ps;
  }
}
