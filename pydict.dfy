/**
 * A Python dict as the model sees it: the list of its (key, value) pairs in insertion order.
 * `dict(items)` is `FromItems(items)`: a key seen again keeps its first position and takes the
 * later value.  Keys here are always strings, as in JSON objects and flattened rows.
 */
module PyDict {
  import opened Results

  type Items<V> = seq<(string, V)>

  function Keys<V>(d: Items<V>): seq<string> {
    seq(|d|, i requires 0 <= i < |d| => d[i].0)
  }

  predicate DistinctKeys<V>(d: Items<V>) {
    forall i, j :: 0 <= i < j < |d| ==> d[i].0 != d[j].0
  }

  /** Position of the pair with key `k`, or -1 when there is none. */
  function IndexOf<V>(d: Items<V>, k: string): (i: int)
    ensures -1 <= i < |d|
    ensures 0 <= i ==> d[i].0 == k && forall j :: 0 <= j < i ==> d[j].0 != k
    ensures i == -1 ==> forall j :: 0 <= j < |d| ==> d[j].0 != k
  {
    if d == [] then -1
    else if d[0].0 == k then 0
    else
      var i := IndexOf(d[1..], k);
      if i < 0 then -1 else i + 1
  }

  /** The contract of IndexOf determines it. */
  lemma IndexOfIs<V>(d: Items<V>, k: string, i: int)
    requires -1 <= i < |d|
    requires 0 <= i ==> d[i].0 == k && forall j :: 0 <= j < i ==> d[j].0 != k
    requires i == -1 ==> forall j :: 0 <= j < |d| ==> d[j].0 != k
    ensures IndexOf(d, k) == i
  {
  }

  lemma IndexOfSameKeys<V>(d: Items<V>, d': Items<V>, k: string)
    requires |d| == |d'| && forall j :: 0 <= j < |d| ==> d[j].0 == d'[j].0
    ensures IndexOf(d, k) == IndexOf(d', k)
  {
    IndexOfIs(d', k, IndexOf(d, k));
  }

  lemma IndexOfAppend<V>(d: Items<V>, x: (string, V), k: string)
    ensures IndexOf(d + [x], k) == if IndexOf(d, k) >= 0 then IndexOf(d, k) else if x.0 == k then |d| else -1
  {
    var i := IndexOf(d, k);
    IndexOfIs(d + [x], k, if i >= 0 then i else if x.0 == k then |d| else -1);
  }

  predicate HasKey<V>(d: Items<V>, k: string) {
    IndexOf(d, k) >= 0
  }

  /** `d.get(k)`: the value stored under `k`, if any. */
  function Get<V>(d: Items<V>, k: string): (r: Option<V>)
    ensures r.Some? <==> exists i :: 0 <= i < |d| && d[i].0 == k
    ensures DistinctKeys(d) ==> forall i :: 0 <= i < |d| && d[i].0 == k ==> r == Some(d[i].1)
  {
    var i := IndexOf(d, k);
    if i < 0 then None else Some(d[i].1)
  }

  /** `d[k] = v`: replaces the value in place when `k` is present, appends the pair otherwise. */
  function Put<V>(d: Items<V>, k: string, v: V): Items<V> {
    var i := IndexOf(d, k);
    if i < 0 then d + [(k, v)] else d[i := (k, v)]
  }

  lemma PutGet<V>(d: Items<V>, k: string, v: V, k': string)
    ensures Get(Put(d, k, v), k') == if k' == k then Some(v) else Get(d, k')
  {
    var i := IndexOf(d, k);
    if i < 0 {
      IndexOfAppend(d, (k, v), k');
    } else {
      IndexOfSameKeys(d[i := (k, v)], d, k');
    }
  }

  lemma PutDistinct<V>(d: Items<V>, k: string, v: V)
    requires DistinctKeys(d)
    ensures DistinctKeys(Put(d, k, v))
  {
  }

  /** Storing the pairs of `items` into `d` one after the other, left to right. */
  function PutAll<V>(d: Items<V>, items: Items<V>): Items<V>
    decreases |items|
  {
    if items == [] then d
    else
      var n := |items| - 1;
      Put(PutAll(d, items[..n]), items[n].0, items[n].1)
  }

  /** `dict(items)`. */
  function FromItems<V>(items: Items<V>): Items<V> {
    PutAll([], items)
  }

  /** The value of the LAST pair of `items` whose key is `k`. */
  function LastValue<V>(items: Items<V>, k: string): (r: Option<V>)
    ensures r.Some? <==> exists i :: 0 <= i < |items| && items[i].0 == k
    ensures r.Some? ==> exists i :: 0 <= i < |items| && items[i] == (k, r.value)
                                    && forall j :: i < j < |items| ==> items[j].0 != k
    decreases |items|
  {
    if items == [] then None
    else
      var n := |items| - 1;
      if items[n].0 == k then Some(items[n].1) else LastValue(items[..n], k)
  }

  lemma {:induction false} PutAllGet<V>(d: Items<V>, items: Items<V>, k: string)
    ensures Get(PutAll(d, items), k) == if LastValue(items, k).Some? then LastValue(items, k) else Get(d, k)
    decreases |items|
  {
    if items != [] {
      var n := |items| - 1;
      PutAllGet(d, items[..n], k);
      PutGet(PutAll(d, items[..n]), items[n].0, items[n].1, k);
    }
  }

  lemma {:induction false} PutAllDistinct<V>(d: Items<V>, items: Items<V>)
    requires DistinctKeys(d)
    ensures DistinctKeys(PutAll(d, items))
    decreases |items|
  {
    if items != [] {
      var n := |items| - 1;
      PutAllDistinct(d, items[..n]);
      PutDistinct(PutAll(d, items[..n]), items[n].0, items[n].1);
    }
  }

  lemma {:induction false} PutAllAppend<V>(d: Items<V>, a: Items<V>, b: Items<V>)
    ensures PutAll(d, a + b) == PutAll(PutAll(d, a), b)
    decreases |b|
  {
    if b == [] {
      assert a + b == a;
    } else {
      var n := |b| - 1;
      assert (a + b)[..|a| + n] == a + b[..n];
      PutAllAppend(d, a, b[..n]);
    }
  }

  lemma PutPutSame<V>(d: Items<V>, k: string, v1: V, v2: V)
    ensures Put(Put(d, k, v1), k, v2) == Put(d, k, v2)
  {
    var i := IndexOf(d, k);
    if i < 0 {
      IndexOfAppend(d, (k, v1), k);
    } else {
      IndexOfSameKeys(d[i := (k, v1)], d, k);
    }
  }

  lemma PutCommute<V>(g: Items<V>, k: string, v: V, k2: string, v2: V)
    requires HasKey(g, k) && k != k2
    ensures Put(Put(g, k, v), k2, v2) == Put(Put(g, k2, v2), k, v)
  {
    var i := IndexOf(g, k);
    var j := IndexOf(g, k2);
    IndexOfSameKeys(g[i := (k, v)], g, k2);
    if j < 0 {
      IndexOfAppend(g, (k2, v2), k);
    } else {
      IndexOfSameKeys(g[j := (k2, v2)], g, k);
    }
  }

  /** Overwriting one value of `f` before storing `f` into `e` is the same as overwriting it after. */
  lemma {:induction false} PutAllUpdate<V>(e: Items<V>, f: Items<V>, i: nat, v: V)
    requires DistinctKeys(f) && i < |f|
    ensures PutAll(e, f[i := (f[i].0, v)]) == Put(PutAll(e, f), f[i].0, v)
    decreases |f|
  {
    var k := f[i].0;
    var n := |f| - 1;
    var f' := f[i := (k, v)];
    var g := PutAll(e, f[..n]);
    if i == n {
      assert f'[..n] == f[..n];
      PutPutSame(g, k, f[n].1, v);
    } else {
      var h := f[..n];
      assert f'[..n] == h[i := (k, v)];
      assert f'[n] == f[n];
      assert h[i].0 == k;
      PutAllUpdate(e, h, i, v);
      PutAllGet(e, h, k);
      assert HasKey(g, k);
      PutCommute(g, k, v, f[n].0, f[n].1);
    }
  }

  lemma PutAllPut<V>(e: Items<V>, f: Items<V>, k: string, v: V)
    requires DistinctKeys(f)
    ensures PutAll(e, Put(f, k, v)) == Put(PutAll(e, f), k, v)
  {
    var i := IndexOf(f, k);
    if i < 0 {
      assert (f + [(k, v)])[..|f|] == f;
    } else {
      PutAllUpdate(e, f, i, v);
    }
  }

  /** Storing the pairs of `dict(b)` has the same effect as storing the pairs of `b` themselves. */
  lemma {:induction false} PutAllFromItems<V>(e: Items<V>, b: Items<V>)
    ensures PutAll(e, FromItems(b)) == PutAll(e, b)
    decreases |b|
  {
    if b != [] {
      var n := |b| - 1;
      assert DistinctKeys<V>([]);
      PutAllDistinct([], b[..n]);
      PutAllPut(e, FromItems(b[..n]), b[n].0, b[n].1);
      PutAllFromItems(e, b[..n]);
    }
  }

  /** Later wins: `dict(items)[k]` is the value of the last pair with key `k`. */
  lemma FromItemsGet<V>(items: Items<V>, k: string)
    ensures Get(FromItems(items), k) == LastValue(items, k)
  {
    PutAllGet([], items, k);
  }

  lemma FromItemsDistinct<V>(items: Items<V>)
    ensures DistinctKeys(FromItems(items))
  {
    assert DistinctKeys<V>([]);
    PutAllDistinct([], items);
  }

  /** Without repeated keys, `dict(items)` keeps every pair, in order. */
  lemma {:induction false} FromItemsOfDistinct<V>(items: Items<V>)
    requires DistinctKeys(items)
    ensures FromItems(items) == items
    decreases |items|
  {
    if items != [] {
      var n := |items| - 1;
      FromItemsOfDistinct(items[..n]);
      assert IndexOf(items[..n], items[n].0) == -1;
    }
  }

  /** A property that every stored value has is kept by every value of the dict. */
  lemma {:induction false} PutAllValues<V>(d: Items<V>, items: Items<V>, p: V -> bool)
    requires forall i :: 0 <= i < |d| ==> p(d[i].1)
    requires forall i :: 0 <= i < |items| ==> p(items[i].1)
    ensures forall i :: 0 <= i < |PutAll(d, items)| ==> p(PutAll(d, items)[i].1)
    decreases |items|
  {
    if items != [] {
      var n := |items| - 1;
      PutAllValues(d, items[..n], p);
      var g := PutAll(d, items[..n]);
      var j := IndexOf(g, items[n].0);
      assert items[n].1 == items[n].1;
      assert forall i :: 0 <= i < |Put(g, items[n].0, items[n].1)| ==> p(Put(g, items[n].0, items[n].1)[i].1) by {
        if j < 0 {
          assert Put(g, items[n].0, items[n].1) == g + [(items[n].0, items[n].1)];
        } else {
          assert Put(g, items[n].0, items[n].1) == g[j := (items[n].0, items[n].1)];
        }
      }
    }
  }
}
