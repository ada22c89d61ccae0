/** A functional reference definition of `performPivot`
    (src/utils/pivotEngine.ts): group keys, buckets, the sorted column keys,
    the header row, the percentage denominators and the grid, each written as
    a function of the whole input. The imperative engine is proved equal to
    `Pivot`, and the lemmas of PivotProperties are stated about it. */
module PivotSpec {
  import opened PivotTypes
  import opened JsValues
  import opened Strings
  import opened Seqs

  // ---------------------------------------------------------------- keys

  /** The key text of each configured field of one record. */
  function KeyParts(js: JsRuntime, fields: seq<string>, row: DataRow): seq<string>
  {
    seq(|fields|, i requires 0 <= i < |fields| => KeyText(js, Get(row, fields[i])))
  }

  /** The "::"-joined key of a record over `fields`, or "Total" when no field
      is configured. */
  function GroupKey(js: JsRuntime, fields: seq<string>, row: DataRow): string
  {
    if |fields| > 0 then Join(KeyParts(js, fields, row)) else "Total"
  }

  /** The group keys of the records, in input order. */
  function Keys(js: JsRuntime, fields: seq<string>, data: seq<DataRow>): (ks: seq<string>)
    ensures |ks| == |data|
    ensures forall i :: 0 <= i < |data| ==> ks[i] == GroupKey(js, fields, data[i])
  {
    if data == [] then []
    else Keys(js, fields, data[..|data| - 1]) + [GroupKey(js, fields, data[|data| - 1])]
  }

  /** The records whose key over `fields` is `k`, in input order. */
  function FilterBy(js: JsRuntime, fields: seq<string>, data: seq<DataRow>, k: string): (r: seq<DataRow>)
    ensures |r| <= |data|
    ensures forall x :: x in r <==> x in data && GroupKey(js, fields, x) == k
  {
    if data == [] then []
    else
      var last := data[|data| - 1];
      assert data == data[..|data| - 1] + [last];
      FilterBy(js, fields, data[..|data| - 1], k) + (if GroupKey(js, fields, last) == k then [last] else [])
  }

  /** The bucket of a (row key, column key) pair: the records carrying both
      keys, in input order. */
  function Bucket(js: JsRuntime, config: PivotConfig, data: seq<DataRow>, rk: string, ck: string): (b: seq<DataRow>)
    ensures |b| <= |data|
    ensures forall x :: x in b <==> x in data && GroupKey(js, config.rows, x) == rk && GroupKey(js, config.columns, x) == ck
  {
    FilterBy(js, config.columns, FilterBy(js, config.rows, data, rk), ck)
  }

  /** Row groups in the order their key is first met. */
  function RowOrder(js: JsRuntime, config: PivotConfig, data: seq<DataRow>): seq<string>
  {
    FirstSeen(Keys(js, config.rows, data))
  }

  /** The distinct column keys, sorted. */
  function SortedColKeys(js: JsRuntime, config: PivotConfig, data: seq<DataRow>): seq<string>
  {
    Sort(FirstSeen(Keys(js, config.columns, data)))
  }

  /** The column keys a grid row walks through. */
  function IterColKeys(config: PivotConfig, sorted: seq<string>): seq<string>
  {
    if |config.columns| > 0 then sorted else ["Total"]
  }

  // ------------------------------------------------------------- headers

  /** `v.aggregator.toUpperCase()` */
  function UpperName(a: Aggregator): string
  {
    match a
    case Sum => "SUM"
    case Count => "COUNT"
    case Average => "AVERAGE"
    case Min => "MIN"
    case Max => "MAX"
    case Percentage => "PERCENTAGE"
  }

  /** The value label used when columns are configured. */
  function ColumnLabel(v: ValueSpec): string
  {
    if v.aggregator == Percentage then "% " + v.field + " "
    else UpperName(v.aggregator) + " (" + v.field + ")"
  }

  function ColumnHeader(ck: string, v: ValueSpec): string
  {
    ck + " - " + ColumnLabel(v) + " "
  }

  /** The value label used when no column is configured. */
  function SimpleLabel(v: ValueSpec): string
  {
    if v.aggregator == Percentage then "% of Grand Total(" + v.field + ")"
    else UpperName(v.aggregator) + " (" + v.field + ")"
  }

  /** One header per value spec under column key `ck`. */
  function BlockHeaders(ck: string, vs: seq<ValueSpec>): seq<string>
  {
    MapSeq(vs, v => ColumnHeader(ck, v))
  }

  /** Column keys outer, value specs inner. */
  function ColumnHeaders(cks: seq<string>, vs: seq<ValueSpec>): seq<string>
  {
    if cks == [] then [] else ColumnHeaders(cks[..|cks| - 1], vs) + BlockHeaders(cks[|cks| - 1], vs)
  }

  function SimpleHeaders(vs: seq<ValueSpec>): seq<string>
  {
    MapSeq(vs, SimpleLabel)
  }

  function Headers(config: PivotConfig, sorted: seq<string>): seq<string>
  {
    config.rows + if |config.columns| > 0 then ColumnHeaders(sorted, config.values) else SimpleHeaders(config.values)
  }

  // -------------------------------------------------------- aggregation

  /** `r => Number(r[f]) || 0` */
  function FieldNumber(js: JsRuntime, f: string): DataRow -> real
  {
    r => ToNumber(js, Get(r, f))
  }

  /** `rows.map(r => Number(r[f]) || 0)` */
  function FieldValues(js: JsRuntime, rows: seq<DataRow>, f: string): seq<real>
  {
    MapSeq(rows, FieldNumber(js, f))
  }

  /** `xs.reduce((a, b) => a + b, 0)` */
  function SumOf(xs: seq<real>): real
  {
    if xs == [] then 0.0 else SumOf(xs[..|xs| - 1]) + xs[|xs| - 1]
  }

  /** `Math.max(...xs)` of a non-empty list. */
  function MaxOf(xs: seq<real>): (m: real)
    requires |xs| > 0
    ensures m in xs
    ensures forall i :: 0 <= i < |xs| ==> xs[i] <= m
  {
    if |xs| == 1 then xs[0]
    else
      var m := MaxOf(xs[..|xs| - 1]);
      assert forall i :: 0 <= i < |xs| - 1 ==> xs[i] == xs[..|xs| - 1][i];
      if xs[|xs| - 1] > m then xs[|xs| - 1] else m
  }

  /** `Math.min(...xs)` of a non-empty list. */
  function MinOf(xs: seq<real>): (m: real)
    requires |xs| > 0
    ensures m in xs
    ensures forall i :: 0 <= i < |xs| ==> m <= xs[i]
  {
    if |xs| == 1 then xs[0]
    else
      var m := MinOf(xs[..|xs| - 1]);
      assert forall i :: 0 <= i < |xs| - 1 ==> xs[i] == xs[..|xs| - 1][i];
      if xs[|xs| - 1] < m then xs[|xs| - 1] else m
  }

  /** `total || 1` of the sum of field `f` over all records: the grand total
      a percentage cell divides by. */
  function Denominator(js: JsRuntime, data: seq<DataRow>, f: string): (d: real)
    ensures d != 0.0
    ensures SumOf(FieldValues(js, data, f)) != 0.0 ==> d == SumOf(FieldValues(js, data, f))
    ensures SumOf(FieldValues(js, data, f)) == 0.0 ==> d == 1.0
  {
    var t := SumOf(FieldValues(js, data, f));
    if t == 0.0 then 1.0 else t
  }

  /** The denominator a cell of spec `v` is given: the grand total for a
      percentage spec; other aggregators do not read it. */
  function TotalFor(js: JsRuntime, data: seq<DataRow>, v: ValueSpec): (d: real)
    ensures d != 0.0
  {
    if v.aggregator == Percentage then Denominator(js, data, v.field) else 1.0
  }

  /** `calculatedValue` for a non-empty bucket. */
  function Aggregate(js: JsRuntime, bucket: seq<DataRow>, v: ValueSpec, total: real): real
    requires |bucket| > 0 && total != 0.0
  {
    var vals := FieldValues(js, bucket, v.field);
    match v.aggregator
    case Sum => SumOf(vals)
    case Count => |bucket| as real
    case Average => SumOf(vals) / (if |vals| == 0 then 1 else |vals|) as real
    case Max => MaxOf(vals)
    case Min => MinOf(vals)
    case Percentage => SumOf(vals) / total * 100.0
  }

  /** The cell one value spec contributes for one bucket: 0 for an empty
      bucket whatever the aggregator, a "nn.nn% " string for a percentage,
      and otherwise the aggregate rounded to two decimals. */
  function CellFor(js: JsRuntime, bucket: seq<DataRow>, v: ValueSpec, total: real): (c: Cell)
    requires total != 0.0
    ensures |bucket| == 0 ==> c == Number(0.0)
    ensures |bucket| > 0 && v.aggregator == Count ==> c == Number(|bucket| as real)
    ensures c.Text? <==> |bucket| > 0 && v.aggregator == Percentage
  {
    if |bucket| == 0 then Number(0.0)
    else
      var value := Aggregate(js, bucket, v, total);
      if v.aggregator == Percentage then Text(ToFixed2(value) + "% ")
      else
        assert v.aggregator == Count ==> value == |bucket| as real;
        if v.aggregator == Count then Round2Nat(|bucket|); Number(Round2(value))
        else Number(Round2(value))
  }

  // ----------------------------------------------------------------- grid

  function TextCells(parts: seq<string>): seq<Cell>
  {
    MapSeq(parts, (p: string) => Text(p))
  }

  /** `rowKey.split('::')` as leading cells, only when row fields are configured. */
  function LeadCells(config: PivotConfig, rk: string): seq<Cell>
  {
    if |config.rows| > 0 then TextCells(Split(rk)) else []
  }

  /** The cell of spec `v` for the (rk, ck) bucket of `data`. */
  function CellAt(js: JsRuntime, data: seq<DataRow>, config: PivotConfig, rk: string, ck: string, v: ValueSpec): Cell
  {
    CellFor(js, Bucket(js, config, data, rk, ck), v, TotalFor(js, data, v))
  }

  function ValueCells(js: JsRuntime, data: seq<DataRow>, config: PivotConfig, rk: string, ck: string, vs: seq<ValueSpec>): seq<Cell>
  {
    MapSeq(vs, v => CellAt(js, data, config, rk, ck, v))
  }

  function BlockCells(js: JsRuntime, data: seq<DataRow>, config: PivotConfig, rk: string, cks: seq<string>): seq<Cell>
  {
    if cks == [] then []
    else BlockCells(js, data, config, rk, cks[..|cks| - 1]) + ValueCells(js, data, config, rk, cks[|cks| - 1], config.values)
  }

  function GridRow(js: JsRuntime, data: seq<DataRow>, config: PivotConfig, rk: string, cks: seq<string>): seq<Cell>
  {
    LeadCells(config, rk) + BlockCells(js, data, config, rk, cks)
  }

  function GridRows(js: JsRuntime, data: seq<DataRow>, config: PivotConfig, rks: seq<string>, cks: seq<string>): (r: seq<seq<Cell>>)
    ensures |r| == |rks|
    ensures forall i :: 0 <= i < |rks| ==> r[i] == GridRow(js, data, config, rks[i], cks)
  {
    if rks == [] then []
    else GridRows(js, data, config, rks[..|rks| - 1], cks) + [GridRow(js, data, config, rks[|rks| - 1], cks)]
  }

  /** The whole pivot result. */
  function Pivot(js: JsRuntime, data: seq<DataRow>, config: PivotConfig): PivotResult
  {
    if |data| == 0 then PivotResult([], [])
    else
      var sorted := SortedColKeys(js, config, data);
      PivotResult(Headers(config, sorted),
                  GridRows(js, data, config, RowOrder(js, config, data), IterColKeys(config, sorted)))
  }
}
