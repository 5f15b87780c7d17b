/**
 * `get_top_changes(df, column_name)`: coerce one column to float in the caller's DataFrame, sort
 * the rows by it in descending order, take the first three and keep four columns.
 */
module Ranking {
  import opened Results
  import opened PyDict
  import opened Json
  import opened Frame

  // ---------------------------------------------------------------------------------------------
  // astype(float)

  /** A cell after `astype(float)`: a number or NaN. */
  predicate IsFloat(c: Cell) {
    c == NaN || (c.Value? && c.v.JNum?)
  }

  /** `float(x)` for one cell, as numpy's cast of an object column does it.  `parseFloat` is Python's
      float() on strings, left abstract.  A string that is not a number and a list (a sequence
      cannot fill one array element) give ValueError; a dict gives TypeError. */
  function ToFloat(c: Cell, parseFloat: string -> Option<real>): (r: Result<Cell>)
    ensures r.Ok? ==> IsFloat(r.value)
    ensures IsFloat(c) ==> r == Ok(c)
    ensures r.Err? <==> c.Value? && (c.v.JArr? || c.v.JObj? || (c.v.JStr? && parseFloat(c.v.s).None?))
    ensures r == Err(TypeError) <==> c.Value? && c.v.JObj?
  {
    match c
    case NaN => Ok(NaN)
    case Value(JNull) => Ok(NaN)
    case Value(JBool(b)) => Ok(Value(JNum(if b then 1.0 else 0.0)))
    case Value(JNum(_)) => Ok(c)
    case Value(JStr(s)) =>
      (match parseFloat(s)
       case Some(x) => Ok(Value(JNum(x)))
       case None => Err(ValueError))
    case Value(JArr(_)) => Err(ValueError)
    case Value(JObj(_)) => Err(TypeError)
  }

  /** `astype(float)` of a whole column: every cell converts, or the first failure is raised. */
  function ToFloats(cells: seq<Cell>, parseFloat: string -> Option<real>): (r: Result<seq<Cell>>)
    ensures r.Ok? <==> forall i :: 0 <= i < |cells| ==> ToFloat(cells[i], parseFloat).Ok?
    ensures r.Ok? ==> |r.value| == |cells| && forall i :: 0 <= i < |cells| ==> ToFloat(cells[i], parseFloat) == Ok(r.value[i])
    ensures r.Err? ==>
      exists i :: (0 <= i < |cells| && ToFloat(cells[i], parseFloat) == Err(r.error) &&
                   forall j :: 0 <= j < i ==> ToFloat(cells[j], parseFloat).Ok?)
    decreases |cells|
  {
    if cells == [] then Ok([])
    else
      var x :- ToFloat(cells[0], parseFloat);
      var rest :- ToFloats(cells[1..], parseFloat);
      Ok([x] + rest)
  }

  /** `df[column_name] = df[column_name].astype(float)` as a new table value: the named column
      holds floats afterwards and every other cell is as it was. */
  function CoerceColumn(t: Table, col: string, parseFloat: string -> Option<real>): (r: Result<Table>)
    requires Valid(t)
    ensures col !in t.columns ==> r == Err(KeyError(col))
    ensures col in t.columns ==> (r.Ok? <==> forall i :: 0 <= i < |t.rows| ==> ToFloat(t.rows[i][col], parseFloat).Ok?)
    ensures r.Ok? ==> col in t.columns && Valid(r.value) && r.value.columns == t.columns && |r.value.rows| == |t.rows|
    ensures r.Ok? ==> forall i :: 0 <= i < |t.rows| ==>
      IsFloat(r.value.rows[i][col]) && ToFloat(t.rows[i][col], parseFloat) == Ok(r.value.rows[i][col])
    ensures r.Ok? ==> forall i, c :: 0 <= i < |t.rows| && c in t.columns && c != col ==> r.value.rows[i][c] == t.rows[i][c]
  {
    var cells :- Column(t, col);
    var floats :- ToFloats(cells, parseFloat);
    Ok(Table(t.columns, seq(|t.rows|, i requires 0 <= i < |t.rows| => t.rows[i][col := floats[i]])))
  }

  // ---------------------------------------------------------------------------------------------
  // sort_values(by=column_name, ascending=False)

  /** `a` may stand before `b` in a descending sort: the larger number first, NaN after every number
      (pandas places NaN last whatever the direction). */
  predicate RanksBefore(a: Cell, b: Cell) {
    if a.Value? && a.v.JNum? then !(b.Value? && b.v.JNum?) || a.v.n >= b.v.n
    else !(b.Value? && b.v.JNum?)
  }

  lemma RanksBeforeTotal(a: Cell, b: Cell)
    ensures RanksBefore(a, b) || RanksBefore(b, a)
  {
  }

  lemma RanksBeforeTransitive(a: Cell, b: Cell, c: Cell)
    requires RanksBefore(a, b) && RanksBefore(b, c)
    ensures RanksBefore(a, c)
  {
  }

  predicate DistinctIndices(order: seq<nat>) {
    forall i, j :: 0 <= i < j < |order| ==> order[i] != order[j]
  }

  /** `order` lists positions of `keys` from the highest key to the lowest. */
  predicate SortedBy(keys: seq<Cell>, order: seq<nat>)
    requires forall i :: 0 <= i < |order| ==> order[i] < |keys|
  {
    forall i, j :: 0 <= i < j < |order| ==> RanksBefore(keys[order[i]], keys[order[j]])
  }

  /** `order` places the first `n` positions of `keys`, each once, from the highest key down. */
  ghost predicate SortedPrefix(keys: seq<Cell>, order: seq<nat>, n: nat) {
    && |order| == n && DistinctIndices(order)
    && (forall j :: 0 <= j < |order| ==> order[j] < n <= |keys|)
    && (forall u :: 0 <= u < n ==> u in order)
    && SortedBy(keys, order)
  }

  /** Inserting position `n` where its key belongs keeps the order sorted. */
  lemma InsertAt(keys: seq<Cell>, order: seq<nat>, n: nat, p: nat)
    requires n < |keys| && SortedPrefix(keys, order, n) && p <= |order|
    requires forall q :: 0 <= q < p ==> RanksBefore(keys[order[q]], keys[n])
    requires forall q :: p <= q < |order| ==> RanksBefore(keys[n], keys[order[q]])
    ensures SortedPrefix(keys, order[..p] + [n] + order[p..], n + 1)
  {
    var o := order[..p] + [n] + order[p..];
    assert forall q :: 0 <= q < |o| ==> o[q] == if q < p then order[q] else if q == p then n else order[q - 1];
    forall u | 0 <= u < n + 1
      ensures u in o
    {
      if u == n {
        assert o[p] == n;
      } else {
        assert u in order;
        var q :| 0 <= q < |order| && order[q] == u;
        assert o[if q < p then q else q + 1] == u;
      }
    }
    forall i, j | 0 <= i < j < |o|
      ensures o[i] != o[j] && RanksBefore(keys[o[i]], keys[o[j]])
    {
      if j < p || i > p {
      } else if i == p {
      } else if j == p {
      } else {
        RanksBeforeTransitive(keys[order[i]], keys[n], keys[order[j - 1]]);
      }
    }
  }

  /** The row order of `sort_values(ascending=False)`: a permutation of the row positions that is
      sorted by key.  Rows with equal keys may come in any order. */
  method RankOrder(keys: seq<Cell>) returns (order: seq<nat>)
    ensures |order| == |keys| && DistinctIndices(order)
    ensures forall i :: 0 <= i < |order| ==> order[i] < |keys|
    ensures forall u :: 0 <= u < |keys| ==> u in order
    ensures SortedBy(keys, order)
  {
    order := [];
    for i := 0 to |keys|
      invariant SortedPrefix(keys, order, i)
    {
      var p := 0;
      while p < |order| && RanksBefore(keys[order[p]], keys[i])
        invariant 0 <= p <= |order|
        invariant forall q :: 0 <= q < p ==> RanksBefore(keys[order[q]], keys[i])
      {
        p := p + 1;
      }
      if p < |order| {
        RanksBeforeTotal(keys[order[p]], keys[i]);
        forall q | p < q < |order|
          ensures RanksBefore(keys[i], keys[order[q]])
        {
          RanksBeforeTransitive(keys[i], keys[order[p]], keys[order[q]]);
        }
      }
      InsertAt(keys, order, i, p);
      order := order[..p] + [i] + order[p..];
    }
  }

  // ---------------------------------------------------------------------------------------------
  // head(3) and the projection

  const TopCount: nat := 3

  function Min(a: nat, b: nat): nat {
    if a <= b then a else b
  }

  /** The columns of the returned frame, in this order (a repeated name gives a repeated column). */
  function ProjectedColumns(col: string): seq<string> {
    ["name", col, "transactions_h1_sells", "transactions_h1_buys"]
  }

  /** The first of `wanted` that `t` lacks: `t[wanted]` raises KeyError for it. */
  function FirstMissing(t: Table, wanted: seq<string>): (r: Option<string>)
    ensures r.None? <==> forall i :: 0 <= i < |wanted| ==> wanted[i] in t.columns
    ensures r.Some? ==> r.value in wanted && r.value !in t.columns
    decreases |wanted|
  {
    if wanted == [] then None
    else if wanted[0] !in t.columns then Some(wanted[0])
    else FirstMissing(t, wanted[1..])
  }

  /** A row of the result: its position in the input frame (pandas keeps the index) and its cells
      in the projected columns. */
  datatype RankedRow = RankedRow(index: nat, cells: seq<Cell>)

  datatype TopChanges = TopChanges(columns: seq<string>, rows: seq<RankedRow>)

  /** What `get_top_changes` promises of its result `r`, given the table after coercion. */
  ghost predicate IsTopChanges(t: Table, col: string, r: TopChanges)
    requires Valid(t) && col in t.columns
  {
    var n := |t.rows|;
    && r.columns == ProjectedColumns(col)
    && |r.rows| == Min(TopCount, n)
    && (forall i :: 0 <= i < |r.rows| ==> r.rows[i].index < n)
    && (forall i, j :: 0 <= i < j < |r.rows| ==> r.rows[i].index != r.rows[j].index)
    && (forall i :: 0 <= i < |r.rows| ==>
          var row := t.rows[r.rows[i].index];
          |r.rows[i].cells| == |r.columns| &&
          forall c :: 0 <= c < |r.columns| && r.columns[c] in row ==> r.rows[i].cells[c] == row[r.columns[c]])
    && (forall i, j :: 0 <= i < j < |r.rows| ==>
          RanksBefore(t.rows[r.rows[i].index][col], t.rows[r.rows[j].index][col]))
    && (forall i, u :: 0 <= i < |r.rows| && 0 <= u < n &&
          (forall j :: 0 <= j < |r.rows| ==> r.rows[j].index != u)
          ==> RanksBefore(t.rows[r.rows[i].index][col], t.rows[u][col]))
  }

  /** The sort keys: the cells of column `col`, top to bottom. */
  function SortKeys(t: Table, col: string): (keys: seq<Cell>)
    requires Valid(t) && col in t.columns
    ensures |keys| == |t.rows| && forall i :: 0 <= i < |t.rows| ==> keys[i] == t.rows[i][col]
  {
    seq(|t.rows|, i requires 0 <= i < |t.rows| => t.rows[i][col])
  }

  /** The rows at positions `top`, each cut down to the columns `wanted`. */
  function Project(t: Table, top: seq<nat>, wanted: seq<string>): seq<RankedRow>
    requires forall i :: 0 <= i < |top| ==> top[i] < |t.rows|
    requires forall i, c :: 0 <= i < |top| && 0 <= c < |wanted| ==> wanted[c] in t.rows[top[i]]
  {
    seq(|top|, i requires 0 <= i < |top| =>
      RankedRow(top[i], seq(|wanted|, c requires 0 <= c < |wanted| => t.rows[top[i]][wanted[c]])))
  }

  /** In a descending order, each of the first `k` positions ranks before every position that is
      not among them. */
  lemma PrefixRanksFirst(keys: seq<Cell>, order: seq<nat>, k: nat)
    requires SortedPrefix(keys, order, |keys|) && k <= |order|
    ensures forall i, u :: 0 <= i < k && 0 <= u < |keys| && u !in order[..k] ==> RanksBefore(keys[order[i]], keys[u])
  {
    forall i, u | 0 <= i < k && 0 <= u < |keys| && u !in order[..k]
      ensures RanksBefore(keys[order[i]], keys[u])
    {
      assert u in order;
      var q :| 0 <= q < |order| && order[q] == u;
      assert q >= k by {
        assert forall j :: 0 <= j < k ==> order[..k][j] == order[j];
      }
    }
  }

  /** The first rows of a descending order are the top changes. */
  lemma TopOfOrder(t: Table, col: string, order: seq<nat>)
    requires Valid(t) && col in t.columns
    requires FirstMissing(t, ProjectedColumns(col)).None?
    requires SortedPrefix(SortKeys(t, col), order, |t.rows|)
    ensures var top := order[..Min(TopCount, |order|)];
      && (forall i, c :: 0 <= i < |top| && 0 <= c < |ProjectedColumns(col)| ==> ProjectedColumns(col)[c] in t.rows[top[i]])
      && IsTopChanges(t, col, TopChanges(ProjectedColumns(col), Project(t, top, ProjectedColumns(col))))
  {
    var keys := SortKeys(t, col);
    var k := Min(TopCount, |order|);
    var top := order[..k];
    var wanted := ProjectedColumns(col);
    assert forall i, c :: 0 <= i < |top| && 0 <= c < |wanted| ==> wanted[c] in t.rows[top[i]] by {
      forall i, c | 0 <= i < |top| && 0 <= c < |wanted|
        ensures wanted[c] in t.rows[top[i]]
      {
        assert wanted[c] in t.columns;
        assert t.rows[top[i]].Keys == set c | c in t.columns;
      }
    }
    var rows := Project(t, top, wanted);
    assert forall j :: 0 <= j < |rows| ==> rows[j].index == order[j] && t.rows[rows[j].index][col] == keys[order[j]];
    PrefixRanksFirst(keys, order, k);
    forall i, u | 0 <= i < |rows| && 0 <= u < |t.rows| && (forall j :: 0 <= j < |rows| ==> rows[j].index != u)
      ensures RanksBefore(t.rows[rows[i].index][col], t.rows[u][col])
    {
      assert u !in top;
    }
  }

  /** `get_top_changes(df, column_name)`.  The coercion is written back into the caller's frame
      before anything else can fail, so a KeyError from the projection leaves it changed. */
  method GetTopChanges(df: DataFrame, col: string, parseFloat: string -> Option<real>) returns (r: Result<TopChanges>)
    requires Valid(df.table)
    modifies df
    ensures var coerced := CoerceColumn(old(df.table), col, parseFloat);
      if coerced.Err? then r == Err(coerced.error) && df.table == old(df.table)
      else
        && df.table == coerced.value
        && (FirstMissing(coerced.value, ProjectedColumns(col)).Some? ==>
              r == Err(KeyError(FirstMissing(coerced.value, ProjectedColumns(col)).value)))
        && (FirstMissing(coerced.value, ProjectedColumns(col)).None? ==>
              r.Ok? && IsTopChanges(coerced.value, col, r.value))
  {
    var coerced := CoerceColumn(df.table, col, parseFloat);
    if coerced.Err? {
      return Err(coerced.error);
    }
    var t := coerced.value;
    df.table := t;
    var order := RankOrder(SortKeys(t, col));
    var wanted := ProjectedColumns(col);
    var missing := FirstMissing(t, wanted);
    if missing.Some? {
      return Err(KeyError(missing.value));
    }
    TopOfOrder(t, col, order);
    r := Ok(TopChanges(wanted, Project(t, order[..Min(TopCount, |order|)], wanted)));
  }

  // ---------------------------------------------------------------------------------------------
  // Worked examples

  /** Two pools with price changes 5.0 and -2.5: the first is ranked first. */
  lemma TopChangesExample(t: Table, col: string, r: TopChanges)
    requires Valid(t) && col in t.columns && |t.rows| == 2
    requires t.rows[0][col] == Value(JNum(5.0)) && t.rows[1][col] == Value(JNum(-2.5))
    requires IsTopChanges(t, col, r)
    ensures |r.rows| == 2 && r.rows[0].index == 0 && r.rows[1].index == 1
  {
    assert RanksBefore(t.rows[r.rows[0].index][col], t.rows[r.rows[1].index][col]);
  }

  /** A missing value ranks after every number, even a negative one: the coerced NaN is placed
      last, not read as 0.0. */
  lemma MissingRanksLast(t: Table, col: string, r: TopChanges)
    requires Valid(t) && col in t.columns && |t.rows| == 2
    requires t.rows[0][col] == NaN && t.rows[1][col] == Value(JNum(-2.5))
    requires IsTopChanges(t, col, r)
    ensures |r.rows| == 2 && r.rows[0].index == 1 && r.rows[1].index == 0
  {
    assert RanksBefore(t.rows[r.rows[0].index][col], t.rows[r.rows[1].index][col]);
  }
}
