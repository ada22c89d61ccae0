/** `performPivot` and `getColumns` (src/utils/pivotEngine.ts) as the
    source runs them: one pass that buckets the records, loops that build the
    header row and the percentage denominators, and nested loops that emit
    the grid cell by cell. `PerformPivot` is proved to compute
    `PivotSpec.Pivot`. */
module PivotEngine {
  import opened PivotTypes
  import opened JsValues
  import opened Strings
  import opened Seqs
  import opened PivotSpec

  /** The two-level grouping object `nodeMap`: row key, then column key, to
      the records of that bucket. */
  type NodeMap = map<string, map<string, seq<DataRow>>>

  /** `nodeMap[rk][ck] || []` */
  function Lookup(nodeMap: NodeMap, rk: string, ck: string): seq<DataRow>
  {
    if rk in nodeMap && ck in nodeMap[rk] then nodeMap[rk][ck] else []
  }

  lemma KeysSnoc(js: JsRuntime, fields: seq<string>, xs: seq<DataRow>, x: DataRow)
    ensures Keys(js, fields, xs + [x]) == Keys(js, fields, xs) + [GroupKey(js, fields, x)]
  {
    assert (xs + [x])[..|xs|] == xs;
  }

  lemma FilterBySnoc(js: JsRuntime, fields: seq<string>, xs: seq<DataRow>, x: DataRow, k: string)
    ensures FilterBy(js, fields, xs + [x], k) ==
            FilterBy(js, fields, xs, k) + if GroupKey(js, fields, x) == k then [x] else []
  {
    assert (xs + [x])[..|xs|] == xs;
  }

  lemma ValueCellsSnoc(js: JsRuntime, data: seq<DataRow>, config: PivotConfig, rk: string, ck: string,
                       vs: seq<ValueSpec>, k: nat)
    requires k < |vs|
    ensures ValueCells(js, data, config, rk, ck, vs[..k + 1]) ==
            ValueCells(js, data, config, rk, ck, vs[..k]) + [CellAt(js, data, config, rk, ck, vs[k])]
  {
    MapSeqSnoc(vs, v => CellAt(js, data, config, rk, ck, v), k);
  }

  lemma BlockHeadersSnoc(ck: string, vs: seq<ValueSpec>, k: nat)
    requires k < |vs|
    ensures BlockHeaders(ck, vs[..k + 1]) == BlockHeaders(ck, vs[..k]) + [ColumnHeader(ck, vs[k])]
  {
    MapSeqSnoc(vs, v => ColumnHeader(ck, v), k);
  }

  lemma SimpleHeadersSnoc(vs: seq<ValueSpec>, k: nat)
    requires k < |vs|
    ensures SimpleHeaders(vs[..k + 1]) == SimpleHeaders(vs[..k]) + [SimpleLabel(vs[k])]
  {
    MapSeqSnoc(vs, SimpleLabel, k);
  }

  lemma ColumnHeadersSnoc(cks: seq<string>, vs: seq<ValueSpec>, j: nat)
    requires j < |cks|
    ensures ColumnHeaders(cks[..j + 1], vs) == ColumnHeaders(cks[..j], vs) + BlockHeaders(cks[j], vs)
  {
    assert cks[..j + 1][..j] == cks[..j];
  }

  lemma BlockCellsSnoc(js: JsRuntime, data: seq<DataRow>, config: PivotConfig, rk: string, cks: seq<string>, j: nat)
    requires j < |cks|
    ensures BlockCells(js, data, config, rk, cks[..j + 1]) ==
            BlockCells(js, data, config, rk, cks[..j]) + ValueCells(js, data, config, rk, cks[j], config.values)
  {
    assert cks[..j + 1][..j] == cks[..j];
  }

  lemma GridRowsSnoc(js: JsRuntime, data: seq<DataRow>, config: PivotConfig, rks: seq<string>, cks: seq<string>, i: nat)
    requires i < |rks|
    ensures GridRows(js, data, config, rks[..i + 1], cks) ==
            GridRows(js, data, config, rks[..i], cks) + [GridRow(js, data, config, rks[i], cks)]
  {
    assert rks[..i + 1][..i] == rks[..i];
  }

  /** One more record extends a first-seen key list only when its key is new. */
  lemma FirstSeenKeysSnoc(js: JsRuntime, fields: seq<string>, xs: seq<DataRow>, x: DataRow)
    ensures FirstSeen(Keys(js, fields, xs + [x])) ==
            var p := FirstSeen(Keys(js, fields, xs));
            var k := GroupKey(js, fields, x);
            if k in p then p else p + [k]
  {
    KeysSnoc(js, fields, xs, x);
    FirstSeenSnoc(Keys(js, fields, xs), GroupKey(js, fields, x));
  }

  /** A nodeMap that holds the buckets of `xs`, with `x` pushed onto its own
      bucket, holds the buckets of `xs + [x]`. */
  lemma BucketsSnoc(js: JsRuntime, config: PivotConfig, xs: seq<DataRow>, x: DataRow, before: NodeMap, after: NodeMap)
    requires forall rk, ck :: Lookup(before, rk, ck) == Bucket(js, config, xs, rk, ck)
    requires forall rk, ck :: Lookup(after, rk, ck) ==
               Lookup(before, rk, ck) +
               if rk == GroupKey(js, config.rows, x) && ck == GroupKey(js, config.columns, x) then [x] else []
    ensures forall rk, ck :: Lookup(after, rk, ck) == Bucket(js, config, xs + [x], rk, ck)
  {
    forall rk, ck ensures Lookup(after, rk, ck) == Bucket(js, config, xs + [x], rk, ck) {
      BucketSnoc(js, config, xs, x, rk, ck);
    }
  }

  /** Appending a record to the input appends it to its own bucket only. */
  lemma BucketSnoc(js: JsRuntime, config: PivotConfig, xs: seq<DataRow>, x: DataRow, rk: string, ck: string)
    ensures Bucket(js, config, xs + [x], rk, ck) ==
            Bucket(js, config, xs, rk, ck) +
            if GroupKey(js, config.rows, x) == rk && GroupKey(js, config.columns, x) == ck then [x] else []
  {
    var a := FilterBy(js, config.rows, xs, rk);
    FilterBySnoc(js, config.rows, xs, x, rk);
    if GroupKey(js, config.rows, x) == rk {
      assert FilterBy(js, config.rows, xs + [x], rk) == a + [x];
      FilterBySnoc(js, config.columns, a, x, ck);
    } else {
      assert FilterBy(js, config.rows, xs + [x], rk) == a;
    }
  }

  /** What part A has built after reading the records `xs`: the row keys in
      first-seen order (the key order of `nodeMap`), the column-key set in
      insertion order, and every bucket. */
  ghost predicate Grouped(js: JsRuntime, config: PivotConfig, xs: seq<DataRow>,
                          nodeMap: NodeMap, rowOrder: seq<string>, allColKeys: seq<string>)
  {
    && rowOrder == FirstSeen(Keys(js, config.rows, xs))
    && allColKeys == FirstSeen(Keys(js, config.columns, xs))
    && (forall rk :: rk in nodeMap <==> rk in rowOrder)
    && (forall rk, ck :: Lookup(nodeMap, rk, ck) == Bucket(js, config, xs, rk, ck))
  }

  /** Part A of performPivot: every record is appended to the bucket of its
      (row key, column key) pair; row keys are remembered in insertion order
      and column keys collected in a set. */
  method GroupRecords(js: JsRuntime, config: PivotConfig, data: seq<DataRow>)
    returns (nodeMap: NodeMap, rowOrder: seq<string>, allColKeys: seq<string>)
    ensures rowOrder == RowOrder(js, config, data)
    ensures allColKeys == FirstSeen(Keys(js, config.columns, data))
    ensures forall rk :: rk in nodeMap <==> rk in rowOrder
    ensures forall rk, ck :: Lookup(nodeMap, rk, ck) == Bucket(js, config, data, rk, ck)
  {
    nodeMap, rowOrder, allColKeys := map[], [], [];
    for i := 0 to |data|
      invariant Grouped(js, config, data[..i], nodeMap, rowOrder, allColKeys)
    {
      nodeMap, rowOrder, allColKeys := AddRecord(js, config, data[..i], nodeMap, rowOrder, allColKeys, data[i]);
      PrefixSnoc(data, i);
    }
    assert data[..|data|] == data;
  }

  /** The body of the `data.forEach` of part A, for one record. */
  method AddRecord(js: JsRuntime, config: PivotConfig, ghost xs: seq<DataRow>,
                   nodeMap: NodeMap, rowOrder: seq<string>, allColKeys: seq<string>, row: DataRow)
    returns (nodeMap': NodeMap, rowOrder': seq<string>, allColKeys': seq<string>)
    requires Grouped(js, config, xs, nodeMap, rowOrder, allColKeys)
    ensures Grouped(js, config, xs + [row], nodeMap', rowOrder', allColKeys')
  {
    var rowKey := GroupKey(js, config.rows, row);
    var colKey := GroupKey(js, config.columns, row);
    allColKeys' := if colKey !in allColKeys then allColKeys + [colKey] else allColKeys;
    rowOrder' := if rowKey !in nodeMap then rowOrder + [rowKey] else rowOrder;
    nodeMap' := PushRecord(nodeMap, rowKey, colKey, row);
    FirstSeenKeysSnoc(js, config.rows, xs, row);
    FirstSeenKeysSnoc(js, config.columns, xs, row);
    BucketsSnoc(js, config, xs, row, nodeMap, nodeMap');
  }

  /** Lines 25-28 of part A: create the row entry and the bucket when
      missing, then push the record onto the bucket. */
  method PushRecord(nodeMap: NodeMap, rowKey: string, colKey: string, row: DataRow) returns (m: NodeMap)
    ensures m.Keys == nodeMap.Keys + {rowKey}
    ensures forall rk, ck :: Lookup(m, rk, ck) ==
              Lookup(nodeMap, rk, ck) + if rk == rowKey && ck == colKey then [row] else []
  {
    m := nodeMap;
    if rowKey !in m { m := m[rowKey := map[]]; }
    if colKey !in m[rowKey] { m := m[rowKey := m[rowKey][colKey := []]]; }
    m := m[rowKey := m[rowKey][colKey := m[rowKey][colKey] + [row]]];
  }

  /** Part B of performPivot: the row fields, then one header per (column
      key, value spec) with column keys outer, or one per value spec when no
      column is configured. */
  method BuildHeaders(config: PivotConfig, sortedColKeys: seq<string>) returns (headers: seq<string>)
    ensures headers == Headers(config, sortedColKeys)
  {
    if |config.columns| > 0 {
      headers := PushColumnHeaders(config.rows, sortedColKeys, config.values);
    } else {
      headers := PushSimpleHeaders(config.rows, config.values);
    }
  }

  /** The outer loop of part B when columns are configured. */
  method PushColumnHeaders(headers: seq<string>, sortedColKeys: seq<string>, values: seq<ValueSpec>)
    returns (r: seq<string>)
    ensures r == headers + ColumnHeaders(sortedColKeys, values)
  {
    r := headers;
    for j := 0 to |sortedColKeys|
      invariant r == headers + ColumnHeaders(sortedColKeys[..j], values)
    {
      ColumnHeadersSnoc(sortedColKeys, values, j);
      AppendAssoc(headers, ColumnHeaders(sortedColKeys[..j], values), BlockHeaders(sortedColKeys[j], values));
      r := PushBlockHeaders(r, sortedColKeys[j], values);
    }
    assert sortedColKeys[..|sortedColKeys|] == sortedColKeys;
  }

  /** Part B when no column is configured: one header per value spec. */
  method PushSimpleHeaders(headers: seq<string>, values: seq<ValueSpec>) returns (r: seq<string>)
    ensures r == headers + SimpleHeaders(values)
  {
    r := headers;
    for k := 0 to |values|
      invariant r == headers + SimpleHeaders(values[..k])
    {
      SimpleHeadersSnoc(values, k);
      AppendAssoc(headers, SimpleHeaders(values[..k]), [SimpleLabel(values[k])]);
      r := r + [SimpleLabel(values[k])];
    }
    assert values[..|values|] == values;
  }

  /** The inner loop of part B: one header per value spec under `colKey`. */
  method PushBlockHeaders(headers: seq<string>, colKey: string, values: seq<ValueSpec>) returns (r: seq<string>)
    ensures r == headers + BlockHeaders(colKey, values)
  {
    r := headers;
    for k := 0 to |values|
      invariant r == headers + BlockHeaders(colKey, values[..k])
    {
      BlockHeadersSnoc(colKey, values, k);
      AppendAssoc(headers, BlockHeaders(colKey, values[..k]), [ColumnHeader(colKey, values[k])]);
      r := r + [ColumnHeader(colKey, values[k])];
    }
    assert values[..|values|] == values;
  }

  /** Part C of performPivot: for each field aggregated as a percentage, the
      sum of its numeric readings over all records, with 0 replaced by 1. */
  method GrandTotals(js: JsRuntime, data: seq<DataRow>, values: seq<ValueSpec>) returns (grandTotals: map<string, real>)
    ensures forall f :: f in grandTotals ==> grandTotals[f] == Denominator(js, data, f)
    ensures forall m :: 0 <= m < |values| && values[m].aggregator == Percentage ==> values[m].field in grandTotals
  {
    grandTotals := map[];
    if exists k :: 0 <= k < |values| && values[k].aggregator == Percentage {
      grandTotals := PercentageTotals(js, data, values);
    }
  }

  /** After the first `k` value specs: every entry is the `d` value of its
      field, and every percentage field among them has an entry. */
  ghost predicate TotalsUpTo(values: seq<ValueSpec>, d: string -> real, g: map<string, real>, k: nat)
  {
    && (forall f :: f in g ==> g[f] == d(f))
    && (forall m :: 0 <= m < k && m < |values| && values[m].aggregator == Percentage ==> values[m].field in g)
  }

  function DenominatorOf(js: JsRuntime, data: seq<DataRow>): string -> real
  {
    f => Denominator(js, data, f)
  }

  /** A percentage spec adds its field's `d` value. */
  lemma PercentageStep(values: seq<ValueSpec>, d: string -> real, g: map<string, real>, k: nat)
    requires k < |values| && values[k].aggregator == Percentage && TotalsUpTo(values, d, g, k)
    ensures TotalsUpTo(values, d, g[values[k].field := d(values[k].field)], k + 1)
  {
    var g2 := g[values[k].field := d(values[k].field)];
    forall m | 0 <= m < k + 1 && m < |values| && values[m].aggregator == Percentage
      ensures values[m].field in g2
    {
      if m < k {
        assert values[m].field in g;
      }
    }
  }

  /** Any other spec leaves the totals as they are. */
  lemma OtherStep(values: seq<ValueSpec>, d: string -> real, g: map<string, real>, k: nat)
    requires k < |values| && values[k].aggregator != Percentage && TotalsUpTo(values, d, g, k)
    ensures TotalsUpTo(values, d, g, k + 1)
  {
    forall m | 0 <= m < k + 1 && m < |values| && values[m].aggregator == Percentage
      ensures values[m].field in g
    {
      assert m < k;
    }
  }

  /** The `values.forEach` of part C: one entry per field aggregated as a
      percentage. */
  method PercentageTotals(js: JsRuntime, data: seq<DataRow>, values: seq<ValueSpec>) returns (grandTotals: map<string, real>)
    ensures forall f :: f in grandTotals ==> grandTotals[f] == Denominator(js, data, f)
    ensures forall m :: 0 <= m < |values| && values[m].aggregator == Percentage ==> values[m].field in grandTotals
  {
    ghost var d := DenominatorOf(js, data);
    grandTotals := map[];
    for k := 0 to |values|
      invariant TotalsUpTo(values, d, grandTotals, k)
    {
      var v := values[k];
      if v.aggregator == Percentage {
        PercentageStep(values, d, grandTotals, k);
        var total := SumOf(FieldValues(js, data, v.field));
        assert d(v.field) == if total == 0.0 then 1.0 else total;
        grandTotals := grandTotals[v.field := if total == 0.0 then 1.0 else total];
      } else {
        OtherStep(values, d, grandTotals, k);
      }
    }
  }

  /** Part D of performPivot for one row group: the row key's components,
      then for each column key one cell per value spec, computed from that
      bucket (empty when the pair never occurred). */
  method BuildRow(js: JsRuntime, data: seq<DataRow>, config: PivotConfig, nodeMap: NodeMap,
                  grandTotals: map<string, real>, sortedColKeys: seq<string>, rowKey: string)
    returns (rowResult: seq<Cell>)
    requires rowKey in nodeMap
    requires forall rk, ck :: Lookup(nodeMap, rk, ck) == Bucket(js, config, data, rk, ck)
    requires forall f :: f in grandTotals ==> grandTotals[f] == Denominator(js, data, f)
    requires forall m :: 0 <= m < |config.values| && config.values[m].aggregator == Percentage ==>
               config.values[m].field in grandTotals
    ensures rowResult == GridRow(js, data, config, rowKey, IterColKeys(config, sortedColKeys))
  {
    var colMap := nodeMap[rowKey];
    rowResult := if |config.rows| > 0 then TextCells(Split(rowKey)) else [];
    var colKeysToIterate := if |config.columns| > 0 then sortedColKeys else ["Total"];
    for j := 0 to |colKeysToIterate|
      invariant rowResult == LeadCells(config, rowKey) + BlockCells(js, data, config, rowKey, colKeysToIterate[..j])
    {
      var colKey := colKeysToIterate[j];
      var groupRows := if colKey in colMap then colMap[colKey] else [];
      assert groupRows == Bucket(js, config, data, rowKey, colKey) by {
        assert groupRows == Lookup(nodeMap, rowKey, colKey);
      }
      BlockCellsSnoc(js, data, config, rowKey, colKeysToIterate, j);
      AppendAssoc(LeadCells(config, rowKey), BlockCells(js, data, config, rowKey, colKeysToIterate[..j]),
                  ValueCells(js, data, config, rowKey, colKey, config.values));
      rowResult := PushValueCells(js, data, config, grandTotals, rowKey, colKey, groupRows, rowResult);
    }
    assert colKeysToIterate[..|colKeysToIterate|] == colKeysToIterate;
  }

  /** The inner loop of part D: one cell per value spec for the bucket
      `groupRows` of (rowKey, colKey). */
  method PushValueCells(js: JsRuntime, data: seq<DataRow>, config: PivotConfig, grandTotals: map<string, real>,
                        rowKey: string, colKey: string, groupRows: seq<DataRow>, rowResult: seq<Cell>)
    returns (r: seq<Cell>)
    requires groupRows == Bucket(js, config, data, rowKey, colKey)
    requires forall f :: f in grandTotals ==> grandTotals[f] == Denominator(js, data, f)
    requires forall m :: 0 <= m < |config.values| && config.values[m].aggregator == Percentage ==>
               config.values[m].field in grandTotals
    ensures r == rowResult + ValueCells(js, data, config, rowKey, colKey, config.values)
  {
    var values := config.values;
    r := rowResult;
    for k := 0 to |values|
      invariant r == rowResult + ValueCells(js, data, config, rowKey, colKey, values[..k])
    {
      var v := values[k];
      var total := if v.aggregator == Percentage then grandTotals[v.field] else 1.0;
      var cell := CellFor(js, groupRows, v, total);
      assert cell == CellAt(js, data, config, rowKey, colKey, v);
      ValueCellsSnoc(js, data, config, rowKey, colKey, values, k);
      AppendAssoc(rowResult, ValueCells(js, data, config, rowKey, colKey, values[..k]), [cell]);
      r := r + [cell];
    }
    assert values[..|values|] == values;
  }

  /** `performPivot`: {headers: [], data: []} for an empty row set, and
      otherwise the four passes above, the grid built row group by row group
      in insertion order. */
  method PerformPivot(js: JsRuntime, data: seq<DataRow>, config: PivotConfig) returns (result: PivotResult)
    ensures result == Pivot(js, data, config)
    ensures data == [] ==> result == PivotResult([], [])
  {
    if |data| == 0 {
      return PivotResult([], []);
    }
    var nodeMap, rowOrder, allColKeys := GroupRecords(js, config, data);
    var sortedColKeys := Sort(allColKeys);
    var headers := BuildHeaders(config, sortedColKeys);
    var grandTotals := GrandTotals(js, data, config.values);

    var resultData: seq<seq<Cell>> := [];
    for i := 0 to |rowOrder|
      invariant resultData == GridRows(js, data, config, rowOrder[..i], IterColKeys(config, sortedColKeys))
    {
      var rowResult := BuildRow(js, data, config, nodeMap, grandTotals, sortedColKeys, rowOrder[i]);
      GridRowsSnoc(js, data, config, rowOrder, IterColKeys(config, sortedColKeys), i);
      resultData := resultData + [rowResult];
    }
    assert rowOrder[..|rowOrder|] == rowOrder;
    result := PivotResult(headers, resultData);
  }

  /** `getColumns`: the field names of the first record, in its order; none
      for an empty row set. */
  function GetColumns(data: seq<DataRow>): (names: seq<string>)
    ensures data == [] ==> names == []
    ensures data != [] ==> |names| == |data[0].fields|
    ensures data != [] ==> forall i :: 0 <= i < |names| ==> names[i] == data[0].fields[i].0 && Get(data[0], names[i]).Some?
  {
    if |data| == 0 then [] else seq(|data[0].fields|, i requires 0 <= i < |data[0].fields| => data[0].fields[i].0)
  }
}
