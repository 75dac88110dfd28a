/**
 * The part of pandas the core relies on: a DataFrame built from a list of records
 * (`pd.DataFrame(list_of_dicts)`), its `empty` flag and the two ways a row is read,
 * `row.get(key, default)` and `row[key]`.
 */
module Frames {
  import opened Wrappers

  /**
   * A Python value as a parsed JSON document or a frame cell holds it. `Null` stands for
   * `None`, JSON `null` and the NaN pandas puts in a cell a record does not have. Python
   * tells these apart where the model cannot: `float(None)` raises while `float(nan)` gives
   * NaN, so a `toFloat` parameter answers both the same way.
   */
  datatype Value =
    | Null
    | Bool(b: bool)
    | Num(n: real)
    | Str(s: string)
    | List(items: seq<Value>)
    | Object(fields: map<string, Value>)

  type Record = map<string, Value>

  /** A frame: its column labels and one record per row. */
  datatype Frame = Frame(columns: set<string>, rows: seq<Record>)

  /** `pd.DataFrame()`. */
  const EmptyFrame: Frame := Frame({}, [])

  /** `DataFrame.empty`: true when there is no row or no column. */
  predicate IsEmpty(f: Frame) {
    |f.rows| == 0 || f.columns == {}
  }

  /** The labels of all the records, the columns pandas makes of them. */
  function KeysOf(records: seq<Record>): (r: set<string>)
    ensures forall k :: k in r <==> exists i :: 0 <= i < |records| && k in records[i]
  {
    if records == [] then {}
    else
      var rest := KeysOf(records[1..]);
      assert forall k :: (exists i :: 1 <= i < |records| && k in records[i]) ==> k in rest by {
        forall k | exists i :: 1 <= i < |records| && k in records[i] ensures k in rest {
          var i :| 1 <= i < |records| && k in records[i];
          assert k in records[1..][i - 1];
        }
      }
      records[0].Keys + rest
  }

  /** The records of a JSON list whose every element is an object; None otherwise. */
  function AsRecords(items: seq<Value>): (r: Option<seq<Record>>)
    ensures r.Some? <==> forall i :: 0 <= i < |items| ==> items[i].Object?
    ensures r.Some? ==> |r.value| == |items| && forall i :: 0 <= i < |items| ==> r.value[i] == items[i].fields
  {
    if items == [] then Some([])
    else if !items[0].Object? then None
    else match AsRecords(items[1..])
      case None => None
      case Some(rest) => Some([items[0].fields] + rest)
  }

  /**
   * `pd.DataFrame(data)` for parsed JSON: a list of objects gives one row per object,
   * in order, with the union of their keys as columns. Every other shape is a failure.
   */
  function FromJson(v: Value): (r: Option<Frame>)
    ensures r.Some? <==> v.List? && forall i :: 0 <= i < |v.items| ==> v.items[i].Object?
    ensures r.Some? ==> |r.value.rows| == |v.items|
    ensures r.Some? ==> forall k :: k in r.value.columns <==> exists i :: 0 <= i < |r.value.rows| && k in r.value.rows[i]
    ensures r.Some? ==> forall i :: 0 <= i < |v.items| ==> v.items[i] == Object(r.value.rows[i])
  {
    if !v.List? then None
    else match AsRecords(v.items)
      case None => None
      case Some(records) => Some(Frame(KeysOf(records), records))
  }

  /** The cell of `row` under `key`: the record's value, or NaN when the record lacks it. */
  function Cell(row: Record, key: string): Value {
    if key in row then row[key] else Null
  }

  /** `row.get(key, default)`: the cell when the frame has the column, else `default`. */
  function Get(f: Frame, row: Record, key: string, default: Value): (r: Value)
    ensures key in f.columns ==> r == Cell(row, key)
    ensures key !in f.columns ==> r == default
  {
    if key in f.columns then Cell(row, key) else default
  }

  /** `row[key]`: the cell, or a KeyError (None) when the frame has no such column. */
  function Index(f: Frame, row: Record, key: string): (r: Option<Value>)
    ensures r.None? <==> key !in f.columns
    ensures r.Some? ==> r.value == Cell(row, key)
  {
    if key in f.columns then Some(Cell(row, key)) else None
  }
}
