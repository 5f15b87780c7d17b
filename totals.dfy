/**
 * The totals behind the transaction-type pie chart: the sum of `transactions.h1.buys` and the sum
 * of `transactions.h1.sells` over the rows of a table whose `transactions` column holds the
 * per-window counts as dicts.
 */
module Totals {
  import opened Results
  import opened PyDict
  import opened Json
  import opened Frame

  /** What one cell adds to a column's `.sum()`: a number itself, a bool 1 or 0, and nothing for NaN
      or None (the sum skips missing values).  Anything else cannot be added to a number. */
  function Amount(c: Cell): (r: Result<real>)
    ensures r.Err? <==> c.Value? && (c.v.JStr? || c.v.JArr? || c.v.JObj?)
    ensures c.Value? && c.v.JNum? ==> r == Ok(c.v.n)
    ensures c.NaN? || c == Value(JNull) ==> r == Ok(0.0)
  {
    match c
    case NaN => Ok(0.0)
    case Value(JNull) => Ok(0.0)
    case Value(JNum(n)) => Ok(n)
    case Value(JBool(b)) => Ok(if b then 1.0 else 0.0)
    case Value(_) => Err(TypeError)
  }

  /** `series.sum()`: the sum of the amounts of the cells, or TypeError when a cell has none. */
  function Sum(cells: seq<Cell>): (r: Result<real>)
    ensures r.Ok? <==> forall i :: 0 <= i < |cells| ==> Amount(cells[i]).Ok?
    decreases |cells|
  {
    if cells == [] then Ok(0.0)
    else
      var n := |cells| - 1;
      var s :- Sum(cells[..n]);
      var x :- Amount(cells[n]);
      Ok(s + x)
  }

  /** Reference sum of a list of numbers. */
  function Total(xs: seq<real>): real
    decreases |xs|
  {
    if xs == [] then 0.0 else Total(xs[..|xs| - 1]) + xs[|xs| - 1]
  }

  /** The cell of `h1[key]` after `.apply(pd.Series)`: the stored value when the window is a dict
      holding `key`, NaN otherwise (a missing window or a scalar gives no such column). */
  function Field(h1: Cell, key: string): (r: Cell)
    ensures r.Value? <==> h1.Value? && h1.v.JObj? && HasKey(h1.v.members, key)
    ensures r.Value? ==> Some(r.v) == Get(h1.v.members, key)
  {
    if h1.Value? && h1.v.JObj? && HasKey(h1.v.members, key) then Value(Get(h1.v.members, key).value) else NaN
  }

  /** The column `trans_types[key]`: one cell per window. */
  function FieldCells(h1s: seq<Cell>, key: string): (r: seq<Cell>)
    ensures |r| == |h1s| && forall i :: 0 <= i < |h1s| ==> r[i] == Field(h1s[i], key)
  {
    seq(|h1s|, i requires 0 <= i < |h1s| => Field(h1s[i], key))
  }

  /** `.sum()` of a column that exists only if some window holds `key`: KeyError otherwise. */
  function ColumnSum(cells: seq<Cell>, key: string): (r: Result<real>)
    ensures (forall i :: 0 <= i < |cells| ==> cells[i].NaN?) ==> r == Err(KeyError(key))
    ensures (exists i :: 0 <= i < |cells| && cells[i].Value?) ==> r == Sum(cells)
  {
    if forall i :: 0 <= i < |cells| ==> cells[i].NaN? then Err(KeyError(key)) else Sum(cells)
  }

  /** `trans_types[key].sum()` over the window cells. */
  function FieldSum(h1s: seq<Cell>, key: string): Result<real> {
    ColumnSum(FieldCells(h1s, key), key)
  }

  /** The transactions dicts of `df['transactions'].tolist()`; a cell that is not a dict cannot
      become a record of the new frame. */
  function Records(cells: seq<Cell>): (r: Result<seq<Items<Json>>>)
    ensures r.Ok? <==> forall i :: 0 <= i < |cells| ==> cells[i].Value? && cells[i].v.JObj?
    ensures r.Ok? ==> |r.value| == |cells| && forall i :: 0 <= i < |cells| ==> r.value[i] == cells[i].v.members
    ensures r.Err? ==> r.error == TypeError
    decreases |cells|
  {
    if cells == [] then Ok([])
    else
      var n := |cells| - 1;
      var rs :- Records(cells[..n]);
      if cells[n].Value? && cells[n].v.JObj? then Ok(rs + [cells[n].v.members]) else Err(TypeError)
  }

  predicate IsDictCell(c: Cell) {
    c.Value? && c.v.JObj?
  }

  /** The `h1` cells: `pd.DataFrame(df['transactions'].tolist()).h1`.  Each row's cell is its
      transactions dict's `h1` value, or NaN when that dict has no `h1`; other windows and other
      counts in the dicts do not matter.  A cell that is not a dict gives TypeError, and
      AttributeError comes when no transactions dict has an `h1` key. */
  function Windows(t: Table): (r: Result<seq<Cell>>)
    requires Valid(t)
    ensures "transactions" !in t.columns ==> r == Err(KeyError("transactions"))
    ensures "transactions" in t.columns && (exists i :: 0 <= i < |t.rows| && !IsDictCell(t.rows[i]["transactions"])) ==>
      r == Err(TypeError)
    ensures "transactions" in t.columns && (forall i :: 0 <= i < |t.rows| ==> IsDictCell(t.rows[i]["transactions"])) ==>
      (r.Ok? <==> exists i :: 0 <= i < |t.rows| && Field(t.rows[i]["transactions"], "h1").Value?) &&
      (r.Err? ==> r == Err(AttributeError))
    ensures r.Ok? ==>
      && "transactions" in t.columns
      && |r.value| == |t.rows|
      && forall i :: 0 <= i < |t.rows| ==> r.value[i] == Field(t.rows[i]["transactions"], "h1")
  {
    var cells :- Column(t, "transactions");
    var records :- Records(cells);
    var frame := FromRecords(records);
    if "h1" in frame.columns then Column(frame, "h1") else Err(AttributeError)
  }

  /** `buys` and `sells` of plot_transaction_types: the sums of the `buys` and the `sells` cells of
      the `h1` windows.  The buy total is computed first, so its failure is the one raised when
      both fail. */
  function TransactionTotals(t: Table): (r: Result<(real, real)>)
    requires Valid(t)
    ensures Windows(t).Err? ==> r == Err(Windows(t).error)
    ensures Windows(t).Ok? ==>
      var h1s := Windows(t).value;
      && (FieldSum(h1s, "buys").Err? ==> r == Err(FieldSum(h1s, "buys").error))
      && (FieldSum(h1s, "buys").Ok? && FieldSum(h1s, "sells").Err? ==> r == Err(FieldSum(h1s, "sells").error))
      && (r.Ok? <==> FieldSum(h1s, "buys").Ok? && FieldSum(h1s, "sells").Ok?)
      && (r.Ok? ==> r.value == (FieldSum(h1s, "buys").value, FieldSum(h1s, "sells").value))
  {
    var h1s :- Windows(t);
    var buys :- FieldSum(h1s, "buys");
    var sells :- FieldSum(h1s, "sells");
    Ok((buys, sells))
  }

  // ---------------------------------------------------------------------------------------------
  // Properties

  /** The sum of a concatenation is the sum of the sums. */
  lemma {:induction false} SumAppend(a: seq<Cell>, b: seq<Cell>)
    requires Sum(a).Ok? && Sum(b).Ok?
    ensures Sum(a + b) == Ok(Sum(a).value + Sum(b).value)
    decreases |b|
  {
    if b == [] {
      assert a + b == a;
    } else {
      var n := |b| - 1;
      assert (a + b)[..|a| + n] == a + b[..n];
      assert (a + b)[|a| + n] == b[n];
      SumAppend(a, b[..n]);
    }
  }

  /** Cells that hold numbers sum to the total of those numbers. */
  lemma {:induction false} SumOfNumbers(cells: seq<Cell>, xs: seq<real>)
    requires |cells| == |xs| && forall i :: 0 <= i < |cells| ==> cells[i] == Value(JNum(xs[i]))
    ensures Sum(cells) == Ok(Total(xs))
    decreases |cells|
  {
    if cells != [] {
      var n := |cells| - 1;
      SumOfNumbers(cells[..n], xs[..n]);
    }
  }

  /** A missing count adds nothing: summing without the cells that are NaN gives the same total. */
  lemma {:induction false} SumSkipsMissing(a: seq<Cell>, b: seq<Cell>)
    ensures Sum(a + [NaN] + b) == Sum(a + b)
    decreases |b|
  {
    if b == [] {
      assert a + [NaN] + b == a + [NaN];
      assert (a + [NaN])[..|a|] == a;
      assert a + b == a;
    } else {
      var n := |b| - 1;
      assert (a + [NaN] + b)[..|a| + 1 + n] == a + [NaN] + b[..n];
      assert (a + [NaN] + b)[|a| + 1 + n] == b[n];
      assert (a + b)[..|a| + n] == a + b[..n];
      assert (a + b)[|a| + n] == b[n];
      SumSkipsMissing(a, b[..n]);
    }
  }

  lemma FieldSumOfNumbers(h1s: seq<Cell>, key: string, xs: seq<real>)
    requires |h1s| == |xs| && |h1s| > 0
    requires forall i :: 0 <= i < |h1s| ==> Field(h1s[i], key) == Value(JNum(xs[i]))
    ensures FieldSum(h1s, key) == Ok(Total(xs))
  {
    var cells := FieldCells(h1s, key);
    assert cells[0].Value?;
    SumOfNumbers(cells, xs);
  }

  /** The transactions cell records `b` buys and `s` sells in its `h1` window; the dict may hold
      other windows, and the window other counts. */
  predicate HoldsCounts(c: Cell, b: real, s: real) {
    var h1 := Field(c, "h1");
    h1.Value? && h1.v.JObj? && Get(h1.v.members, "buys") == Some(JNum(b)) && Get(h1.v.members, "sells") == Some(JNum(s))
  }

  /** The last-hour window holding `b` buys and `s` sells, and nothing else. */
  function Window(b: real, s: real): Json {
    JObj([("buys", JNum(b)), ("sells", JNum(s))])
  }

  lemma CountsOfWindow(b: real, s: real)
    ensures HoldsCounts(Value(JObj([("h1", Window(b, s))])), b, s)
  {
    IndexOfIs([("h1", Window(b, s))], "h1", 0);
    IndexOfIs(Window(b, s).members, "buys", 0);
    IndexOfIs(Window(b, s).members, "sells", 1);
  }

  /** A table whose every row records `buys[i]` and `sells[i]` for the last hour gives the totals
      of the two lists, each computed from its own count only. */
  lemma TotalsOfCounts(t: Table, buys: seq<real>, sells: seq<real>)
    requires Valid(t) && "transactions" in t.columns && |t.rows| > 0
    requires |buys| == |t.rows| && |sells| == |t.rows|
    requires forall i :: 0 <= i < |t.rows| ==> HoldsCounts(t.rows[i]["transactions"], buys[i], sells[i])
    ensures TransactionTotals(t) == Ok((Total(buys), Total(sells)))
  {
    assert Field(t.rows[0]["transactions"], "h1").Value?;
    var h1s := Windows(t).value;
    forall i | 0 <= i < |h1s|
      ensures Field(h1s[i], "buys") == Value(JNum(buys[i])) && Field(h1s[i], "sells") == Value(JNum(sells[i]))
    {
      var w := h1s[i].v.members;
      assert Get(w, "buys").Some? && Get(w, "sells").Some?;
    }
    FieldSumOfNumbers(h1s, "buys", buys);
    FieldSumOfNumbers(h1s, "sells", sells);
  }

  /** The two totals are independent: windows that agree on one count give the same total for
      it, whatever the other count holds. */
  lemma FieldSumIndependent(h1: seq<Cell>, h2: seq<Cell>, key: string)
    requires |h1| == |h2| && forall i :: 0 <= i < |h1| ==> Field(h1[i], key) == Field(h2[i], key)
    ensures FieldSum(h1, key) == FieldSum(h2, key)
  {
    assert FieldCells(h1, key) == FieldCells(h2, key);
  }

  /** The same for two tables: the buy totals agree when the buy counts do, and the sell totals
      when the sell counts do. */
  lemma TotalsIndependent(t1: Table, t2: Table)
    requires Valid(t1) && Valid(t2) && Windows(t1).Ok? && Windows(t2).Ok?
    requires TransactionTotals(t1).Ok? && TransactionTotals(t2).Ok?
    requires |Windows(t1).value| == |Windows(t2).value|
    ensures (forall i :: 0 <= i < |Windows(t1).value| ==> Field(Windows(t1).value[i], "buys") == Field(Windows(t2).value[i], "buys")) ==>
      TransactionTotals(t1).value.0 == TransactionTotals(t2).value.0
    ensures (forall i :: 0 <= i < |Windows(t1).value| ==> Field(Windows(t1).value[i], "sells") == Field(Windows(t2).value[i], "sells")) ==>
      TransactionTotals(t1).value.1 == TransactionTotals(t2).value.1
  {
    var h1 := Windows(t1).value;
    var h2 := Windows(t2).value;
    if forall i :: 0 <= i < |h1| ==> Field(h1[i], "buys") == Field(h2[i], "buys") {
      FieldSumIndependent(h1, h2, "buys");
    }
    if forall i :: 0 <= i < |h1| ==> Field(h1[i], "sells") == Field(h2[i], "sells") {
      FieldSumIndependent(h1, h2, "sells");
    }
  }

  /** The chart's worked example: buys 3 and 5, sells 1 and 0, give the totals (8, 1). */
  lemma TotalsExample(t: Table)
    requires Valid(t) && "transactions" in t.columns && |t.rows| == 2
    requires t.rows[0]["transactions"] == Value(JObj([("h1", Window(3.0, 1.0))]))
    requires t.rows[1]["transactions"] == Value(JObj([("h1", Window(5.0, 0.0))]))
    ensures TransactionTotals(t) == Ok((8.0, 1.0))
  {
    CountsOfWindow(3.0, 1.0);
    CountsOfWindow(5.0, 0.0);
    TotalsOfCounts(t, [3.0, 5.0], [1.0, 0.0]);
  }
}
