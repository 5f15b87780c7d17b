/**
 * The part of a pandas DataFrame the dashboard relies on: named columns, rows in order, and a
 * missing value (NaN) wherever a record lacks a column.
 */
module Frame {
  import opened Results
  import opened PyDict
  import opened Json

  /** A cell is a value taken from a record, or NaN where the record had no such key. */
  datatype Cell = Value(v: Json) | NaN

  type Row = map<string, Cell>

  datatype Table = Table(columns: seq<string>, rows: seq<Row>)

  predicate Distinct(xs: seq<string>) {
    forall i, j :: 0 <= i < j < |xs| ==> xs[i] != xs[j]
  }

  /** Column names are distinct and every row has a cell in every column, and nowhere else. */
  predicate Valid(t: Table) {
    Distinct(t.columns) && forall r :: 0 <= r < |t.rows| ==> t.rows[r].Keys == set c | c in t.columns
  }

  /** `cols` extended with the names in `ks` it does not hold yet, in the order they come. */
  function AddColumns(cols: seq<string>, ks: seq<string>): (r: seq<string>)
    ensures Distinct(cols) ==> Distinct(r)
    ensures forall c :: c in r <==> c in cols || c in ks
    ensures |cols| <= |r| && r[..|cols|] == cols
    decreases |ks|
  {
    if ks == [] then cols
    else
      var n := |ks| - 1;
      var r0 := AddColumns(cols, ks[..n]);
      assert forall c :: c in ks <==> c in ks[..n] || c == ks[n] by {
        assert ks == ks[..n] + [ks[n]];
      }
      if ks[n] in r0 then r0 else r0 + [ks[n]]
  }

  /** The columns of `pd.DataFrame(records)`: every key of every record, in order of first appearance. */
  function ColumnsOf(records: seq<Items<Json>>): (cols: seq<string>)
    ensures Distinct(cols)
    ensures forall c :: c in cols <==> exists i :: 0 <= i < |records| && HasKey(records[i], c)
    decreases |records|
  {
    if records == [] then []
    else
      var n := |records| - 1;
      var ks := Keys(records[n]);
      assert forall c :: c in ks <==> HasKey(records[n], c) by {
        forall c ensures c in ks <==> HasKey(records[n], c) {
          if HasKey(records[n], c) {
            assert ks[IndexOf(records[n], c)] == c;
          }
        }
      }
      AddColumns(ColumnsOf(records[..n]), ks)
  }

  /** One record as a row over `columns`. */
  function RowOf(columns: seq<string>, record: Items<Json>): Row {
    map c | c in columns :: if HasKey(record, c) then Value(Get(record, c).value) else NaN
  }

  /** `pd.DataFrame(records)` for a list of dicts: one row per record, in order; a column per key
      that occurs in any record; NaN where a record lacks a column. */
  function FromRecords(records: seq<Items<Json>>): (t: Table)
    ensures Valid(t)
    ensures |t.rows| == |records|
    ensures forall c :: c in t.columns <==> exists i :: 0 <= i < |records| && HasKey(records[i], c)
    ensures forall i, c :: 0 <= i < |records| && HasKey(records[i], c) ==> t.rows[i][c] == Value(Get(records[i], c).value)
    ensures forall i, c :: 0 <= i < |records| && c in t.columns && !HasKey(records[i], c) ==> t.rows[i][c] == NaN
  {
    var cols := ColumnsOf(records);
    Table(cols, seq(|records|, i requires 0 <= i < |records| => RowOf(cols, records[i])))
  }

  /** `df[c]`: the cells of column `c`, top to bottom; KeyError when there is no such column. */
  function Column(t: Table, c: string): (r: Result<seq<Cell>>)
    requires Valid(t)
    ensures r.Ok? <==> c in t.columns
    ensures r.Ok? ==> |r.value| == |t.rows| && forall i :: 0 <= i < |t.rows| ==> r.value[i] == t.rows[i][c]
    ensures r.Err? ==> r.error == KeyError(c)
  {
    if c in t.columns then Ok(seq(|t.rows|, i requires 0 <= i < |t.rows| => t.rows[i][c]))
    else Err(KeyError(c))
  }

  /** A DataFrame object: callers hold a reference to it, and a method may change its content. */
  class DataFrame {
    var table: Table

    constructor (t: Table)
      ensures table == t
    {
      table := t;
    }
  }
}
