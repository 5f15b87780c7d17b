/**
 * The inner `flatten` of `process_data`: a nested dict becomes one flat dict whose keys are the
 * paths of keys to each non-dict value, joined with a separator.
 *
 * A dict is passed as its member list `d`; `d` together with a count `n` stands for the first `n`
 * members of `d`, which is what the loop has visited after `n` rounds.  Recursion into a nested
 * dict `v` is recursion on `v`, a part of `JObj(d)`, hence the `decreases JObj(d), n` clauses.
 */
module Flattener {
  import opened Results
  import opened PyDict
  import opened Json
  import opened Frame

  /** `f"{parent_key}{sep}{k}" if parent_key else k`: an empty parent key adds no prefix. */
  function ChildKey(parentKey: string, sep: string, k: string): string {
    if parentKey != "" then parentKey + sep + k else k
  }

  /** The list `items` after the loop of `flatten(d, parent_key, sep)` has visited `n` members. */
  function ItemsUpTo(d: Items<Json>, n: nat, parentKey: string, sep: string): Items<Json>
    requires n <= |d|
    decreases JObj(d), n
  {
    if n == 0 then [] else ItemsUpTo(d, n - 1, parentKey, sep) + MemberItems(d[n - 1], parentKey, sep)
  }

  /** What one round of the loop adds to `items` for the member `(k, v)`. */
  function MemberItems(member: (string, Json), parentKey: string, sep: string): Items<Json>
    decreases member.1, if member.1.JObj? then |member.1.members| + 1 else 0
  {
    var (k, v) := member;
    var newKey := ChildKey(parentKey, sep, k);
    if v.JObj? then FromItems(ItemsUpTo(v.members, |v.members|, newKey, sep)) else [(newKey, v)]
  }

  /** What `flatten(d, parent_key, sep)` returns: `dict(items)`. */
  function Flatten(d: Items<Json>, parentKey: string, sep: string): Items<Json> {
    FromItems(ItemsUpTo(d, |d|, parentKey, sep))
  }

  /** `flatten` as the source writes it: a loop that appends scalars and extends with the
      flattened nested dicts, then `dict(items)`. */
  method FlattenDict(d: Items<Json>, parentKey: string, sep: string) returns (r: Items<Json>)
    ensures r == Flatten(d, parentKey, sep)
    decreases JObj(d)
  {
    var items: Items<Json> := [];
    for i := 0 to |d|
      invariant items == ItemsUpTo(d, i, parentKey, sep)
    {
      var (k, v) := d[i];
      var newKey := if parentKey != "" then parentKey + sep + k else k;
      if v.JObj? {
        var sub := FlattenDict(v.members, newKey, sep);
        items := items + sub;
      } else {
        items := items + [(newKey, v)];
      }
    }
    r := FromItems(items);
  }

  // ---------------------------------------------------------------------------------------------
  // Reference definition: the leaves of the tree and the keys their paths flatten to.

  /** Every non-dict value among the first `n` members of `d`, with the path of keys to it
      (after `path`), in the order the loop reaches them. */
  function Leaves(d: Items<Json>, n: nat, path: seq<string>): seq<(seq<string>, Json)>
    requires n <= |d|
    decreases JObj(d), n
  {
    if n == 0 then [] else Leaves(d, n - 1, path) + MemberLeaves(d[n - 1], path)
  }

  function MemberLeaves(member: (string, Json), path: seq<string>): seq<(seq<string>, Json)>
    decreases member.1, if member.1.JObj? then |member.1.members| + 1 else 0
  {
    var (k, v) := member;
    if v.JObj? then Leaves(v.members, |v.members|, path + [k]) else [(path + [k], v)]
  }

  function AllLeaves(d: Items<Json>): seq<(seq<string>, Json)> {
    Leaves(d, |d|, [])
  }

  /** The flat key of a path: ChildKey applied along the path, starting from the empty key. */
  function PathKey(path: seq<string>, sep: string): string
    decreases |path|
  {
    if path == [] then "" else ChildKey(PathKey(path[..|path| - 1], sep), sep, path[|path| - 1])
  }

  /** Each leaf paired with the flat key of its path. */
  function Keyed(leaves: seq<(seq<string>, Json)>, sep: string): Items<Json> {
    seq(|leaves|, i requires 0 <= i < |leaves| => (PathKey(leaves[i].0, sep), leaves[i].1))
  }

  /** The value found by following `p` from the dict `d`, if every step finds a key. */
  function Reach(d: Items<Json>, p: seq<string>): Option<Json>
    decreases |p|
  {
    if p == [] then None
    else
      match Get(d, p[0])
      case None => None
      case Some(x) =>
        if |p| == 1 then Some(x)
        else if x.JObj? then Reach(x.members, p[1..])
        else None
  }

  /** Join `parts` with `sep` between them. */
  function Join(parts: seq<string>, sep: string): string
    decreases |parts|
  {
    if parts == [] then ""
    else if |parts| == 1 then parts[0]
    else Join(parts[..|parts| - 1], sep) + sep + parts[|parts| - 1]
  }

  function DropLeadingEmpty(parts: seq<string>): seq<string>
    decreases |parts|
  {
    if parts != [] && parts[0] == "" then DropLeadingEmpty(parts[1..]) else parts
  }

  predicate AllEmpty(parts: seq<string>) {
    forall i :: 0 <= i < |parts| ==> parts[i] == ""
  }

  // ---------------------------------------------------------------------------------------------
  // Flatten is dict() of the keyed leaves.

  lemma KeyedAppend(a: seq<(seq<string>, Json)>, b: seq<(seq<string>, Json)>, sep: string)
    ensures Keyed(a + b, sep) == Keyed(a, sep) + Keyed(b, sep)
  {
  }

  lemma PathKeySnoc(path: seq<string>, k: string, sep: string)
    ensures PathKey(path + [k], sep) == ChildKey(PathKey(path, sep), sep, k)
  {
    assert (path + [k])[..|path|] == path;
  }

  /** Storing the loop's items into any dict `e` has the same effect as storing the keyed leaves:
      the nested `dict(...)` calls change nothing. */
  lemma {:induction false} ItemsMatchLeaves(e: Items<Json>, d: Items<Json>, n: nat, path: seq<string>, sep: string)
    requires n <= |d|
    ensures PutAll(e, ItemsUpTo(d, n, PathKey(path, sep), sep)) == PutAll(e, Keyed(Leaves(d, n, path), sep))
    decreases JObj(d), n
  {
    if n > 0 {
      var pk := PathKey(path, sep);
      var a := ItemsUpTo(d, n - 1, pk, sep);
      var b := MemberItems(d[n - 1], pk, sep);
      var la := Leaves(d, n - 1, path);
      var lb := MemberLeaves(d[n - 1], path);
      assert ItemsUpTo(d, n, pk, sep) == a + b;
      assert Leaves(d, n, path) == la + lb;
      KeyedAppend(la, lb, sep);
      calc {
        PutAll(e, a + b);
      == { PutAllAppend(e, a, b); }
        PutAll(PutAll(e, a), b);
      == { ItemsMatchLeaves(e, d, n - 1, path, sep); }
        PutAll(PutAll(e, Keyed(la, sep)), b);
      == { MemberMatchesLeaves(PutAll(e, Keyed(la, sep)), d[n - 1], path, sep); }
        PutAll(PutAll(e, Keyed(la, sep)), Keyed(lb, sep));
      == { PutAllAppend(e, Keyed(la, sep), Keyed(lb, sep)); }
        PutAll(e, Keyed(la, sep) + Keyed(lb, sep));
      }
    }
  }

  lemma {:induction false} MemberMatchesLeaves(e: Items<Json>, member: (string, Json), path: seq<string>, sep: string)
    ensures PutAll(e, MemberItems(member, PathKey(path, sep), sep)) == PutAll(e, Keyed(MemberLeaves(member, path), sep))
    decreases member.1, if member.1.JObj? then |member.1.members| + 1 else 0
  {
    var (k, v) := member;
    PathKeySnoc(path, k, sep);
    var newKey := ChildKey(PathKey(path, sep), sep, k);
    if v.JObj? {
      var inner := ItemsUpTo(v.members, |v.members|, newKey, sep);
      PutAllFromItems(e, inner);
      ItemsMatchLeaves(e, v.members, |v.members|, path + [k], sep);
    } else {
      assert Keyed(MemberLeaves(member, path), sep) == [(newKey, v)];
    }
  }

  /** `flatten(d)` is `dict` of the (path key, value) pairs of the leaves, in traversal order. */
  lemma FlattenIsDictOfLeaves(d: Items<Json>, sep: string)
    ensures Flatten(d, "", sep) == FromItems(Keyed(AllLeaves(d), sep))
  {
    ItemsMatchLeaves([], d, |d|, [], sep);
  }

  /** When two paths flatten to the same key, the later leaf's value is the one kept. */
  lemma FlattenGet(d: Items<Json>, sep: string, key: string)
    ensures Get(Flatten(d, "", sep), key) == LastValue(Keyed(AllLeaves(d), sep), key)
  {
    FlattenIsDictOfLeaves(d, sep);
    FromItemsGet(Keyed(AllLeaves(d), sep), key);
  }

  /** Without key collisions the flat dict is exactly the keyed leaves: one entry per leaf. */
  lemma FlattenWithoutCollisions(d: Items<Json>, sep: string)
    requires DistinctKeys(Keyed(AllLeaves(d), sep))
    ensures Flatten(d, "", sep) == Keyed(AllLeaves(d), sep)
    ensures |Flatten(d, "", sep)| == |AllLeaves(d)|
  {
    FlattenIsDictOfLeaves(d, sep);
    FromItemsOfDistinct(Keyed(AllLeaves(d), sep));
  }

  lemma {:induction false} LeavesAreNotDicts(d: Items<Json>, n: nat, path: seq<string>)
    requires n <= |d|
    ensures forall j :: 0 <= j < |Leaves(d, n, path)| ==> !Leaves(d, n, path)[j].1.JObj?
    decreases JObj(d), n
  {
    if n > 0 {
      LeavesAreNotDicts(d, n - 1, path);
      var (k, v) := d[n - 1];
      if v.JObj? {
        LeavesAreNotDicts(v.members, |v.members|, path + [k]);
        assert MemberLeaves(d[n - 1], path) == Leaves(v.members, |v.members|, path + [k]);
      }
    }
  }

  /** Dicts are always recursed into: no value of the flat dict is a dict. */
  lemma FlattenHasNoDictValues(d: Items<Json>, sep: string)
    ensures forall i :: 0 <= i < |Flatten(d, "", sep)| ==> !Flatten(d, "", sep)[i].1.JObj?
  {
    var keyed := Keyed(AllLeaves(d), sep);
    LeavesAreNotDicts(d, |d|, []);
    FlattenIsDictOfLeaves(d, sep);
    PutAllValues([], keyed, (x: Json) => !x.JObj?);
  }

  // ---------------------------------------------------------------------------------------------
  // Every value reached by a path is a leaf, and every leaf is reached by its path.

  /** Completeness: every non-dict value reached by a path `p` from `d` is a leaf with path `p`. */
  lemma {:induction false} LeavesComplete(d: Items<Json>, n: nat, path: seq<string>, p: seq<string>, v: Json)
    requires n <= |d| && p != [] && IndexOf(d, p[0]) < n
    requires Reach(d, p) == Some(v) && !v.JObj?
    ensures (path + p, v) in Leaves(d, n, path)
    decreases JObj(d), n
  {
    var i := IndexOf(d, p[0]);
    var x := d[i].1;
    if i < n - 1 {
      LeavesComplete(d, n - 1, path, p, v);
    } else if |p| == 1 {
      assert path + p == path + [p[0]];
    } else {
      assert x.JObj?;
      var m := x.members;
      assert Reach(m, p[1..]) == Some(v);
      assert Get(m, p[1..][0]).Some?;
      LeavesComplete(m, |m|, path + [p[0]], p[1..], v);
      assert path + [p[0]] + p[1..] == path + p;
    }
  }

  /** Soundness: in a well-formed dict every leaf is reached by its own path. */
  lemma {:induction false} LeavesSound(d: Items<Json>, n: nat, path: seq<string>, j: nat)
    requires WellFormed(JObj(d)) && n <= |d| && j < |Leaves(d, n, path)|
    ensures var (q, v) := Leaves(d, n, path)[j];
      |path| < |q| && q[..|path|] == path && Reach(d, q[|path|..]) == Some(v)
    decreases JObj(d), n
  {
    var (k, x) := d[n - 1];
    var la := Leaves(d, n - 1, path);
    assert Get(d, k) == Some(x);
    if j < |la| {
      LeavesSound(d, n - 1, path, j);
    } else if x.JObj? {
      var m := x.members;
      var (q, v) := Leaves(d, n, path)[j];
      assert (q, v) == Leaves(m, |m|, path + [k])[j - |la|];
      LeavesSound(m, |m|, path + [k], j - |la|);
      assert q[..|path|] == (q[..|path| + 1])[..|path|];
      var p := q[|path|..];
      assert p[0] == k && p[1..] == q[|path| + 1..];
    } else {
      var (q, v) := Leaves(d, n, path)[j];
      assert q == path + [k];
      assert q[|path|..] == [k];
    }
  }

  /** For every non-dict value reached in the input, the flat dict has an entry whose key is the
      flat key of the path to it; when no two leaves share a key, that entry holds the value. */
  lemma FlattenHasEveryLeaf(d: Items<Json>, sep: string, p: seq<string>, v: Json)
    requires Reach(d, p) == Some(v) && !v.JObj?
    ensures HasKey(Flatten(d, "", sep), PathKey(p, sep))
    ensures DistinctKeys(Keyed(AllLeaves(d), sep)) ==> Get(Flatten(d, "", sep), PathKey(p, sep)) == Some(v)
  {
    var leaves := AllLeaves(d);
    LeavesComplete(d, |d|, [], p, v);
    assert [] + p == p;
    var j :| 0 <= j < |leaves| && leaves[j] == (p, v);
    assert Keyed(leaves, sep)[j] == (PathKey(p, sep), v);
    FlattenGet(d, sep, PathKey(p, sep));
    if DistinctKeys(Keyed(leaves, sep)) {
      FlattenWithoutCollisions(d, sep);
    }
  }

  /** Every key of the flat dict is the flat key of a path that reaches a non-dict value. */
  lemma FlattenKeysAreLeafPaths(d: Items<Json>, sep: string, key: string)
    requires WellFormed(JObj(d)) && HasKey(Flatten(d, "", sep), key)
    ensures exists p, v :: Reach(d, p) == Some(v) && !v.JObj? && PathKey(p, sep) == key
  {
    var leaves := AllLeaves(d);
    FlattenGet(d, sep, key);
    var j :| 0 <= j < |leaves| && Keyed(leaves, sep)[j].0 == key;
    LeavesSound(d, |d|, [], j);
    LeavesAreNotDicts(d, |d|, []);
    var (q, v) := leaves[j];
    assert q[0..] == q;
  }

  // ---------------------------------------------------------------------------------------------
  // The shape of the keys.

  lemma {:induction false} PathKeyEmpty(path: seq<string>, sep: string)
    ensures PathKey(path, sep) == "" <==> AllEmpty(path)
    decreases |path|
  {
    if path != [] {
      PathKeyEmpty(path[..|path| - 1], sep);
    }
  }

  lemma {:induction false} DropLeadingEmptySnoc(parts: seq<string>, k: string)
    ensures DropLeadingEmpty(parts + [k]) ==
      if AllEmpty(parts) then DropLeadingEmpty([k]) else DropLeadingEmpty(parts) + [k]
    decreases |parts|
  {
    if parts != [] {
      assert (parts + [k])[1..] == parts[1..] + [k];
      if parts[0] == "" {
        DropLeadingEmptySnoc(parts[1..], k);
      }
    }
  }

  lemma {:induction false} DropLeadingEmptyStart(parts: seq<string>)
    ensures !AllEmpty(parts) ==> DropLeadingEmpty(parts) != [] && DropLeadingEmpty(parts)[0] != ""
    ensures AllEmpty(parts) ==> DropLeadingEmpty(parts) == []
    decreases |parts|
  {
    if parts != [] {
      DropLeadingEmptyStart(parts[1..]);
    }
  }

  /** The flat key of a path is its components joined with `sep`, where the components before the
      first non-empty one are dropped: under an empty parent key, a child key gets no prefix. */
  lemma {:induction false} PathKeyIsJoin(path: seq<string>, sep: string)
    ensures PathKey(path, sep) == Join(DropLeadingEmpty(path), sep)
    decreases |path|
  {
    if path != [] {
      var n := |path| - 1;
      var init, k := path[..n], path[n];
      assert path == init + [k];
      PathKeyIsJoin(init, sep);
      PathKeyEmpty(init, sep);
      DropLeadingEmptySnoc(init, k);
      DropLeadingEmptyStart(init);
      if !AllEmpty(init) {
        var q := DropLeadingEmpty(init);
        assert (q + [k])[..|q|] == q;
      }
    }
  }

  /** With no empty key on the path, the flat key is the plain `sep`-join of the path. */
  lemma PathKeyOfNonEmptyKeys(path: seq<string>, sep: string)
    requires forall i :: 0 <= i < |path| ==> path[i] != ""
    ensures PathKey(path, sep) == Join(path, sep)
  {
    PathKeyIsJoin(path, sep);
  }

  // ---------------------------------------------------------------------------------------------
  // Concatenating dicts, and empty nested dicts.

  lemma {:induction false} ItemsUpToPrefix(a: Items<Json>, b: Items<Json>, n: nat, parentKey: string, sep: string)
    requires n <= |a|
    ensures ItemsUpTo(a + b, n, parentKey, sep) == ItemsUpTo(a, n, parentKey, sep)
  {
    if n > 0 {
      ItemsUpToPrefix(a, b, n - 1, parentKey, sep);
    }
  }

  lemma {:induction false} ItemsUpToAppend(a: Items<Json>, b: Items<Json>, n: nat, parentKey: string, sep: string)
    requires n <= |b|
    ensures ItemsUpTo(a + b, |a| + n, parentKey, sep) == ItemsUpTo(a, |a|, parentKey, sep) + ItemsUpTo(b, n, parentKey, sep)
  {
    if n == 0 {
      ItemsUpToPrefix(a, b, |a|, parentKey, sep);
    } else {
      ItemsUpToAppend(a, b, n - 1, parentKey, sep);
      assert (a + b)[|a| + n - 1] == b[n - 1];
      assert ItemsUpTo(a + b, |a| + n, parentKey, sep)
          == ItemsUpTo(a + b, |a| + n - 1, parentKey, sep) + MemberItems(b[n - 1], parentKey, sep);
    }
  }

  /** An empty nested dict contributes no entries: removing it leaves the result unchanged. */
  lemma EmptyDictContributesNothing(a: Items<Json>, k: string, b: Items<Json>, parentKey: string, sep: string)
    ensures Flatten(a + [(k, JObj([]))] + b, parentKey, sep) == Flatten(a + b, parentKey, sep)
  {
    var x: Items<Json> := [(k, JObj([]))];
    assert MemberItems(x[0], parentKey, sep) == FromItems([]) == [];
    assert ItemsUpTo(x, 1, parentKey, sep) == [];
    ItemsUpToAppend(a, x, 1, parentKey, sep);
    assert ItemsUpTo(a + x, |a + x|, parentKey, sep) == ItemsUpTo(a, |a|, parentKey, sep);
    ItemsUpToAppend(a + x, b, |b|, parentKey, sep);
    ItemsUpToAppend(a, b, |b|, parentKey, sep);
    assert ItemsUpTo(a + x + b, |a + x + b|, parentKey, sep) == ItemsUpTo(a + b, |a + b|, parentKey, sep);
  }

  // ---------------------------------------------------------------------------------------------
  // process_data

  /** `pool['attributes']` as a dict to flatten: `.items()` of anything else raises AttributeError. */
  function AttributesOf(pool: Json): Result<Items<Json>> {
    var a :- Subscript(pool, "attributes");
    if a.JObj? then Ok(a.members) else Err(AttributeError)
  }

  /** `[flatten(pool['attributes']) for pool in pools]`, which stops at the first pool that fails. */
  function FlattenPools(pools: seq<Json>): (r: Result<seq<Items<Json>>>)
    ensures r.Ok? <==> forall i :: 0 <= i < |pools| ==> AttributesOf(pools[i]).Ok?
    ensures r.Ok? ==> |r.value| == |pools|
    ensures r.Ok? ==> forall i :: 0 <= i < |pools| ==> r.value[i] == Flatten(AttributesOf(pools[i]).value, "", "_")
    ensures r.Err? ==>
      exists i :: (0 <= i < |pools| && AttributesOf(pools[i]) == Err(r.error) &&
                   forall j :: 0 <= j < i ==> AttributesOf(pools[j]).Ok?)
    decreases |pools|
  {
    if pools == [] then Ok([])
    else
      var attributes :- AttributesOf(pools[0]);
      var rest :- FlattenPools(pools[1..]);
      Ok([Flatten(attributes, "", "_")] + rest)
  }

  /** `process_data(data)`: one row per entry of `data['data']`, in order, each row the flattened
      `attributes` of that entry, with NaN where a row lacks a column some other row has. */
  function ProcessData(data: Json): (r: Result<Table>)
    ensures r.Ok? <==> DataEntries(data).Ok? && FlattenPools(DataEntries(data).value).Ok?
    ensures r.Ok? ==>
      var pools := DataEntries(data).value;
      Valid(r.value) && |r.value.rows| == |pools| &&
      forall i, c :: 0 <= i < |pools| && HasKey(Flatten(AttributesOf(pools[i]).value, "", "_"), c) ==>
        (c in r.value.columns && r.value.rows[i][c] == Value(Get(Flatten(AttributesOf(pools[i]).value, "", "_"), c).value))
    ensures r.Ok? ==>
      var pools := DataEntries(data).value;
      forall c :: c in r.value.columns <==>
        exists i :: 0 <= i < |pools| && HasKey(Flatten(AttributesOf(pools[i]).value, "", "_"), c)
    ensures r.Ok? ==>
      var pools := DataEntries(data).value;
      forall i, c :: 0 <= i < |pools| && c in r.value.columns && !HasKey(Flatten(AttributesOf(pools[i]).value, "", "_"), c) ==>
        r.value.rows[i][c] == NaN
  {
    var pools :- DataEntries(data);
    var records :- FlattenPools(pools);
    Ok(FromRecords(records))
  }
}
