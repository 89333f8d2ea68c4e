/** Calendar months, their "Mon YYYY" labels and the quarter and year keys
    derived from a label. The source builds labels with the English short
    month format and reads them back by splitting at the space and parsing a date;
    here both directions are written out over (year, month). */
module Calendar {
  import opened Dict

  /** A month number, January = 1. */
  type MonthNum = m: int | 1 <= m <= 12 witness 1

  /** A calendar date; the day plays no part in any key. */
  datatype Date = Date(year: nat, month: MonthNum, day: int)

  /** A month of a year: what a "Mon YYYY" label denotes. */
  datatype MonthKey = MonthKey(year: nat, month: MonthNum)

  function MonthOf(d: Date): MonthKey
  {
    MonthKey(d.year, d.month)
  }

  /** Months since January of year 0. Comparing ordinals is comparing the
      first-of-month dates the source sorts by. */
  function Ordinal(k: MonthKey): nat
  {
    k.year * 12 + k.month - 1
  }

  /** Ordinals order months chronologically and tell them apart. */
  lemma {:induction false} OrdinalChronological(a: MonthKey, b: MonthKey)
    ensures Ordinal(a) < Ordinal(b) <==> a.year < b.year || (a.year == b.year && a.month < b.month)
    ensures Ordinal(a) == Ordinal(b) <==> a == b
  {
    if a.year < b.year {
      assert Ordinal(b) - Ordinal(a) == (b.year - a.year) * 12 + b.month - a.month;
      assert (b.year - a.year) * 12 >= 12;
    } else if a.year > b.year {
      assert Ordinal(a) - Ordinal(b) == (a.year - b.year) * 12 + a.month - b.month;
      assert (a.year - b.year) * 12 >= 12;
    }
  }

  const MonthNames: seq<string> :=
    ["Jan", "Feb", "Mar", "Apr", "May", "Jun", "Jul", "Aug", "Sep", "Oct", "Nov", "Dec"]

  /** The short English month name, as `toLocaleString` prints it. */
  function MonthName(m: MonthNum): string
  {
    MonthNames[m - 1]
  }

  /** The month named `name`, searching from month `from` on. */
  function FindMonth(name: string, from: int): (r: Option<MonthNum>)
    requires 1 <= from <= 13
    ensures r.Some? ==> from <= r.value && MonthName(r.value) == name
    ensures r.Some? ==> forall m: MonthNum :: from <= m < r.value ==> MonthName(m) != name
    ensures r.None? ==> forall m: MonthNum :: from <= m ==> MonthName(m) != name
    decreases 13 - from
  {
    if from == 13 then None
    else if MonthNames[from - 1] == name then Some(from)
    else FindMonth(name, from + 1)
  }

  /** The month a short English name denotes, if it is one. */
  function MonthNumber(name: string): Option<MonthNum>
  {
    FindMonth(name, 1)
  }

  lemma {:induction false} MonthNamesDistinct()
    ensures forall i, j :: 0 <= i < j < 12 ==> MonthNames[i] != MonthNames[j]
  {
  }

  /** Reading a month name back gives the month that printed it. */
  lemma {:induction false} MonthNameRoundTrip(m: MonthNum)
    ensures MonthNumber(MonthName(m)) == Some(m)
  {
    MonthNamesDistinct();
  }

  predicate IsDigit(c: char)
  {
    '0' <= c <= '9'
  }

  predicate AllDigits(s: string)
  {
    forall i :: 0 <= i < |s| ==> IsDigit(s[i])
  }

  predicate NoSpace(s: string)
  {
    forall i :: 0 <= i < |s| ==> s[i] != ' '
  }

  function DigitChar(d: int): (c: char)
    requires 0 <= d <= 9
    ensures IsDigit(c) && c as int - '0' as int == d
  {
    ('0' as int + d) as char
  }

  /** The decimal numeral of `n`, without leading zeros, as a year prints. */
  function NatToString(n: nat): (s: string)
    ensures |s| >= 1 && AllDigits(s)
    decreases n
  {
    if n < 10 then [DigitChar(n)] else NatToString(n / 10) + [DigitChar(n % 10)]
  }

  /** The value of a string of decimal digits. */
  function DigitsValue(s: string): nat
    requires AllDigits(s)
  {
    if |s| == 0 then 0
    else DigitsValue(s[..|s| - 1]) * 10 + (s[|s| - 1] as int - '0' as int)
  }

  /** A year numeral as date parsing reads it: one or more decimal digits. */
  function ParseNat(s: string): Option<nat>
  {
    if |s| > 0 && AllDigits(s) then Some(DigitsValue(s)) else None
  }

  /** Reading a printed numeral back gives the number. */
  lemma {:induction false} NatToStringRoundTrip(n: nat)
    ensures ParseNat(NatToString(n)) == Some(n)
    decreases n
  {
    if n >= 10 {
      var s := NatToString(n);
      NatToStringRoundTrip(n / 10);
      assert s[..|s| - 1] == NatToString(n / 10);
      assert s[|s| - 1] == DigitChar(n % 10);
      assert DigitsValue(s) == DigitsValue(NatToString(n / 10)) * 10 + n % 10;
    }
  }

  /** Distinct numbers print as distinct numerals. */
  lemma {:induction false} NatToStringInjective(a: nat, b: nat)
    ensures NatToString(a) == NatToString(b) <==> a == b
  {
    NatToStringRoundTrip(a);
    NatToStringRoundTrip(b);
  }

  /** Splitting at every single space: the pieces between them, at least one. */
  function Split(s: string): (parts: seq<string>)
    ensures |parts| >= 1
  {
    if |s| == 0 then [""]
    else
      var rest := Split(s[1..]);
      if s[0] == ' ' then [""] + rest else [[s[0]] + rest[0]] + rest[1..]
  }

  /** A string without spaces splits into itself. */
  lemma {:induction false} SplitNoSpace(s: string)
    requires NoSpace(s)
    ensures Split(s) == [s]
  {
    if |s| > 0 {
      SplitNoSpace(s[1..]);
      assert [s[0]] + s[1..] == s;
    }
  }

  /** Splitting `a + " " + b` cuts at the first space when `a` has none. */
  lemma {:induction false} SplitAtSpace(a: string, b: string)
    requires NoSpace(a)
    ensures Split(a + " " + b) == [a] + Split(b)
  {
    var s := a + " " + b;
    if |a| > 0 {
      assert s[1..] == a[1..] + " " + b;
      SplitAtSpace(a[1..], b);
      assert [a[0]] + a[1..] == a;
    } else {
      assert s[1..] == b;
    }
  }

  /** The month key label `"Mon YYYY"`: the short English month name, a
      space and the numeric year, as the locale month format prints it. */
  function Label(k: MonthKey): string
  {
    MonthName(k.month) + " " + NatToString(k.year)
  }

  /** A label read back: split at the space, look up the month name and
      read the year, as building a date from the first of that month does. */
  function ParseLabel(s: string): Option<MonthKey>
  {
    var parts := Split(s);
    if |parts| < 2 then None
    else
      var m := MonthNumber(parts[0]);
      var y := ParseNat(parts[1]);
      if m.Some? && y.Some? then Some(MonthKey(y.value, m.value)) else None
  }

  /** The year half of a label: the second piece after splitting at spaces. */
  function YearPart(monthLabel: string): string
    requires ParseLabel(monthLabel).Some?
  {
    Split(monthLabel)[1]
  }

  lemma {:induction false} MonthNamesHaveNoSpace(m: MonthNum)
    ensures NoSpace(MonthName(m))
  {
  }

  /** Label generation and label parsing are inverses. */
  lemma {:induction false} LabelRoundTrip(k: MonthKey)
    ensures ParseLabel(Label(k)) == Some(k)
    ensures Split(Label(k)) == [MonthName(k.month), NatToString(k.year)]
  {
    var y := NatToString(k.year);
    MonthNamesHaveNoSpace(k.month);
    SplitAtSpace(MonthName(k.month), y);
    assert NoSpace(y);
    SplitNoSpace(y);
    MonthNameRoundTrip(k.month);
    NatToStringRoundTrip(k.year);
  }

  /** Distinct months have distinct labels. */
  lemma {:induction false} LabelInjective(a: MonthKey, b: MonthKey)
    ensures Label(a) == Label(b) <==> a == b
  {
    LabelRoundTrip(a);
    LabelRoundTrip(b);
  }

  /** The quarter a month falls in: its number divided by 3, rounded up. */
  function QuarterOf(m: MonthNum): (q: int)
    ensures 1 <= q <= 4
    ensures 3 * (q - 1) < m <= 3 * q
  {
    (m + 2) / 3
  }

  /** `getQuarter`: the quarter key "Q", the quarter number, "-" and the
      label's year part. */
  function GetQuarter(monthLabel: string): string
    requires ParseLabel(monthLabel).Some?
  {
    var k := ParseLabel(monthLabel).value;
    "Q" + [DigitChar(QuarterOf(k.month))] + "-" + YearPart(monthLabel)
  }

  /** The quarter key of a month, stated on the month itself. */
  function QuarterKey(k: MonthKey): string
  {
    "Q" + [DigitChar(QuarterOf(k.month))] + "-" + NatToString(k.year)
  }

  /** The year and quarter keys read off a generated monthLabel are those of its month. */
  lemma {:induction false} PeriodKeysOfLabel(k: MonthKey)
    ensures ParseLabel(Label(k)).Some?
    ensures YearPart(Label(k)) == NatToString(k.year)
    ensures GetQuarter(Label(k)) == QuarterKey(k)
  {
    LabelRoundTrip(k);
  }

  /** Two months share a quarter key exactly when they share year and quarter. */
  lemma {:induction false} QuarterKeyDistinct(a: MonthKey, b: MonthKey)
    ensures QuarterKey(a) == QuarterKey(b) <==> a.year == b.year && QuarterOf(a.month) == QuarterOf(b.month)
  {
    var qa, qb := QuarterKey(a), QuarterKey(b);
    if qa == qb {
      assert qa[1] == qb[1];
      assert qa[3..] == NatToString(a.year);
      assert qb[3..] == NatToString(b.year);
      NatToStringInjective(a.year, b.year);
    }
  }
}
