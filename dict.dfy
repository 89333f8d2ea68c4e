/** A JavaScript plain object used as a dictionary from strings to values.
    Its keys keep insertion order, and assigning to a key that is already
    present changes the value in place without moving the key. */
module Dict {

  datatype Option<+T> = None | Some(value: T)

  /** The entries of an object, in the order `Object.entries` lists them. */
  type Dict<V> = seq<(string, V)>

  /** The keys of `d`, in insertion order. */
  function Keys<V>(d: Dict<V>): (ks: seq<string>)
    ensures |ks| == |d|
    ensures forall i :: 0 <= i < |d| ==> ks[i] == d[i].0
  {
    seq(|d|, i requires 0 <= i < |d| => d[i].0)
  }

  /** No key occurs twice: what every JavaScript object satisfies. */
  ghost predicate DistinctKeys<V>(d: Dict<V>)
  {
    forall i, j :: 0 <= i < j < |d| ==> d[i].0 != d[j].0
  }

  /** The position of the first entry with key `k` at or after `from`, or -1. */
  function IndexFrom<V>(d: Dict<V>, k: string, from: nat): (r: int)
    requires from <= |d|
    ensures r == -1 || from <= r < |d|
    decreases |d| - from
  {
    if from == |d| then -1
    else if d[from].0 == k then from
    else IndexFrom(d, k, from + 1)
  }

  /** The position of key `k` in `d`, or -1 when `k` is not a key. */
  function IndexOf<V>(d: Dict<V>, k: string): (r: int)
    ensures -1 <= r < |d|
  {
    IndexFrom(d, k, 0)
  }

  lemma {:induction false} IndexFromSpec<V>(d: Dict<V>, k: string, from: nat)
    requires from <= |d|
    ensures IndexFrom(d, k, from) >= 0 ==>
              d[IndexFrom(d, k, from)].0 == k && forall j :: from <= j < IndexFrom(d, k, from) ==> d[j].0 != k
    ensures IndexFrom(d, k, from) == -1 ==> forall j :: from <= j < |d| ==> d[j].0 != k
    decreases |d| - from
  {
    if from < |d| && d[from].0 != k {
      IndexFromSpec(d, k, from + 1);
    }
  }

  /** `IndexOf` finds the first entry with key `k`, and -1 means there is none. */
  lemma {:induction false} IndexOfSpec<V>(d: Dict<V>, k: string)
    ensures IndexOf(d, k) >= 0 ==> d[IndexOf(d, k)].0 == k && forall j :: 0 <= j < IndexOf(d, k) ==> d[j].0 != k
    ensures IndexOf(d, k) == -1 ==> forall j :: 0 <= j < |d| ==> d[j].0 != k
  {
    IndexFromSpec(d, k, 0);
  }

  lemma {:induction false} InKeys<V>(d: Dict<V>, k: string)
    ensures k in Keys(d) <==> IndexOf(d, k) >= 0
  {
    IndexOfSpec(d, k);
    if k in Keys(d) {
      var j :| 0 <= j < |d| && Keys(d)[j] == k;
    }
  }

  /** Reading key `k`; None stands for an absent key. */
  function Get<V>(d: Dict<V>, k: string): Option<V>
  {
    var i := IndexOf(d, k);
    if i >= 0 then Some(d[i].1) else None
  }

  /** Reading gives a value exactly for the keys of `d`. */
  lemma {:induction false} GetSome<V>(d: Dict<V>, k: string)
    ensures Get(d, k).Some? <==> k in Keys(d)
  {
    InKeys(d, k);
  }

  /** With distinct keys, reading an entry's key gives that entry's value. */
  lemma {:induction false} GetAt<V>(d: Dict<V>, i: nat)
    requires DistinctKeys(d) && i < |d|
    ensures Get(d, d[i].0) == Some(d[i].1)
  {
    IndexOfSpec(d, d[i].0);
  }

  /** Reading key `k` with a fallback for an absent key. The callers use
      fallback 0 on numeric values, where a stored 0 and the fallback agree. */
  function GetOr<V>(d: Dict<V>, k: string, dflt: V): V
  {
    match Get(d, k)
    case Some(v) => v
    case None => dflt
  }

  /** Assigning `v` to key `k`: overwrite in place if present, else append. */
  function Put<V>(d: Dict<V>, k: string, v: V): Dict<V>
  {
    var i := IndexOf(d, k);
    if i >= 0 then d[i := (k, v)] else d + [(k, v)]
  }

  /** After assigning `v` to `k`, `k` reads `v`, every other key reads as before, a
      new key goes last and an existing one keeps its place. */
  lemma {:induction false} PutSpec<V>(d: Dict<V>, k: string, v: V)
    ensures Get(Put(d, k, v), k) == Some(v)
    ensures forall k' :: k' != k ==> Get(Put(d, k, v), k') == Get(d, k')
    ensures Keys(Put(d, k, v)) == if k in Keys(d) then Keys(d) else Keys(d) + [k]
    ensures DistinctKeys(d) ==> DistinctKeys(Put(d, k, v))
  {
    var r := Put(d, k, v);
    PutKeys(d, k, v);
    GetPut(d, k, v, k);
    forall k' | k' != k
      ensures Get(r, k') == Get(d, k')
    {
      GetPut(d, k, v, k');
    }
    if DistinctKeys(d) {
      PutDistinct(d, k, v);
    }
  }

  /** Reading key `q` after assigning `v` to `k`. */
  lemma {:induction false} GetPut<V>(d: Dict<V>, k: string, v: V, q: string)
    ensures Get(Put(d, k, v), q) == if q == k then Some(v) else Get(d, q)
  {
    if q == k {
      PutIndexSame(d, k, v);
    } else {
      PutIndexOther(d, k, v, q);
      IndexOfSpec(d, k);
      IndexOfSpec(d, q);
    }
  }

  lemma {:induction false} PutKeys<V>(d: Dict<V>, k: string, v: V)
    ensures Keys(Put(d, k, v)) == if k in Keys(d) then Keys(d) else Keys(d) + [k]
  {
    InKeys(d, k);
    IndexOfSpec(d, k);
    var i := IndexOf(d, k);
    var r := Put(d, k, v);
    if i >= 0 {
      assert r == d[i := (k, v)];
      assert Keys(r) == Keys(d);
    } else {
      assert r == d + [(k, v)];
      assert Keys(r) == Keys(d) + [k];
    }
  }

  lemma {:induction false} PutIndexSame<V>(d: Dict<V>, k: string, v: V)
    ensures IndexOf(Put(d, k, v), k) == if IndexOf(d, k) >= 0 then IndexOf(d, k) else |d|
  {
    var i := IndexOf(d, k);
    var r := Put(d, k, v);
    IndexOfSpec(d, k);
    IndexOfSpec(r, k);
    if i >= 0 {
      assert r[i].0 == k;
      assert forall j :: 0 <= j < i ==> r[j] == d[j];
    } else {
      assert r[|d|].0 == k;
      assert forall j :: 0 <= j < |d| ==> r[j] == d[j];
    }
  }

  lemma {:induction false} PutIndexOther<V>(d: Dict<V>, k: string, v: V, k': string)
    requires k' != k
    ensures IndexOf(Put(d, k, v), k') == IndexOf(d, k')
  {
    var r := Put(d, k, v);
    var i := IndexOf(d, k);
    IndexOfSpec(d, k);
    IndexOfSpec(d, k');
    IndexOfSpec(r, k');
    assert forall j :: 0 <= j < |d| ==> (r[j].0 == k' <==> d[j].0 == k');
    assert |r| == |d| || r[|d|].0 == k;
    var a, b := IndexOf(r, k'), IndexOf(d, k');
    if b >= 0 {
      assert r[b].0 == k';
    }
  }

  lemma {:induction false} PutDistinct<V>(d: Dict<V>, k: string, v: V)
    requires DistinctKeys(d)
    ensures DistinctKeys(Put(d, k, v))
  {
    PutKeys(d, k, v);
    var r := Put(d, k, v);
    forall i, j | 0 <= i < j < |r|
      ensures r[i].0 != r[j].0
    {
      assert r[i].0 == Keys(r)[i] && r[j].0 == Keys(r)[j];
    }
  }

  /** Every entry after assigning `v` to `k` is the new one or an entry of `d`. */
  lemma {:induction false} PutEntries<V>(d: Dict<V>, k: string, v: V)
    ensures forall j :: 0 <= j < |Put(d, k, v)| ==> Put(d, k, v)[j] == (k, v) || Put(d, k, v)[j] in d
  {
    var i := IndexOf(d, k);
    var r := Put(d, k, v);
    IndexOfSpec(d, k);
    forall j | 0 <= j < |r|
      ensures r[j] == (k, v) || r[j] in d
    {
      if j != i && j < |d| {
        assert r[j] == d[j];
      }
    }
  }

  /** The sum of the values of a numeric dictionary. */
  function SumValues(d: Dict<real>): real
  {
    if |d| == 0 then 0.0 else SumValues(d[..|d| - 1]) + d[|d| - 1].1
  }

  /** Replacing one value changes the sum by the difference. */
  lemma {:induction false} SumValuesUpdate(d: Dict<real>, i: nat, e: (string, real))
    requires i < |d|
    ensures SumValues(d[i := e]) == SumValues(d) - d[i].1 + e.1
    decreases |d|
  {
    var n := |d|;
    var r := d[i := e];
    assert r[..n - 1] == if i < n - 1 then d[..n - 1][i := e] else d[..n - 1];
    if i < n - 1 {
      SumValuesUpdate(d[..n - 1], i, e);
    }
  }

  /** Assigning `v` to `k` moves the sum from the old value at `k` (0 if absent) to `v`. */
  lemma {:induction false} SumValuesPut(d: Dict<real>, k: string, v: real)
    ensures SumValues(Put(d, k, v)) == SumValues(d) - GetOr(d, k, 0.0) + v
  {
    var i := IndexOf(d, k);
    IndexOfSpec(d, k);
    if i >= 0 {
      SumValuesUpdate(d, i, (k, v));
    } else {
      assert (d + [(k, v)])[..|d|] == d;
    }
  }

  /** Adding `x` to the value at `k` (0 if absent) adds `x` to the sum. */
  lemma {:induction false} SumValuesAdd(d: Dict<real>, k: string, x: real)
    ensures SumValues(Put(d, k, GetOr(d, k, 0.0) + x)) == SumValues(d) + x
  {
    SumValuesPut(d, k, GetOr(d, k, 0.0) + x);
  }
}
