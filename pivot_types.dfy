/** Data shapes shared by the pivot engine and the configuration actions
    (src/utils/types.ts). */
module PivotTypes {

  datatype Option<T> = None | Some(value: T)

  /** A spreadsheet cell value: string, number, boolean or null. */
  datatype Scalar = Str(s: string) | Num(n: real) | Bool(b: bool) | Null

  /** One record of the row set. The fields are listed in the order in which
      the record enumerates its keys; a field that is not listed is missing. */
  datatype DataRow = DataRow(fields: seq<(string, Scalar)>)

  datatype Aggregator = Sum | Count | Average | Min | Max | Percentage

  datatype ValueSpec = ValueSpec(field: string, aggregator: Aggregator)

  datatype PivotConfig = PivotConfig(rows: seq<string>, columns: seq<string>, values: seq<ValueSpec>)

  /** A grid cell is either a number or a display string (percentage cells
      and the row-key cells are strings). */
  datatype Cell = Number(n: real) | Text(s: string)

  datatype PivotResult = PivotResult(headers: seq<string>, data: seq<seq<Cell>>)

  /** The value of field `f` in `row` (the first entry with that key), or
      None when the record has no such field. */
  function Get(row: DataRow, f: string): (r: Option<Scalar>)
    ensures r.Some? <==> exists i :: 0 <= i < |row.fields| && row.fields[i].0 == f
    ensures r.Some? ==> exists i :: 0 <= i < |row.fields| && row.fields[i] == (f, r.value)
    decreases |row.fields|
  {
    if |row.fields| == 0 then None
    else if row.fields[0].0 == f then Some(row.fields[0].1)
    else
      var r := Get(DataRow(row.fields[1..]), f);
      assert forall i :: 0 < i < |row.fields| ==> row.fields[i] == row.fields[1..][i - 1];
      r
  }
}
