/** What `performPivot` (src/utils/pivotEngine.ts) promises, proved about
    the reference definition `PivotSpec.Pivot`, which `PivotEngine.PerformPivot`
    computes: the header layout, the shape of the grid, the column and row
    key orders, the buckets partitioning the records, and the aggregate
    values. */
module PivotProperties {
  import opened PivotTypes
  import opened JsValues
  import opened Strings
  import opened Seqs
  import opened PivotSpec
  import opened PivotEngine

  /** The two halves of a non-empty result. */
  lemma PivotParts(js: JsRuntime, data: seq<DataRow>, config: PivotConfig)
    requires |data| > 0
    ensures Pivot(js, data, config).headers == Headers(config, SortedColKeys(js, config, data))
    ensures Pivot(js, data, config).data ==
            GridRows(js, data, config, RowOrder(js, config, data), IterColKeys(config, SortedColKeys(js, config, data)))
  {
  }

  // ------------------------------------------------------------- headers

  /** The headers under one column key. */
  function HeaderBlock(vs: seq<ValueSpec>): string -> seq<string>
  {
    ck => BlockHeaders(ck, vs)
  }

  /** The value cells of group `rk` under one column key. */
  function CellBlock(js: JsRuntime, data: seq<DataRow>, config: PivotConfig, rk: string): string -> seq<Cell>
  {
    ck => ValueCells(js, data, config, rk, ck, config.values)
  }

  /** The column headers: one block per column key. */
  lemma {:induction false} ColumnHeadersFlatten(cks: seq<string>, vs: seq<ValueSpec>)
    ensures ColumnHeaders(cks, vs) == Flatten(MapSeq(cks, HeaderBlock(vs)))
  {
    if cks != [] {
      ColumnHeadersFlatten(cks[..|cks| - 1], vs);
    }
  }

  lemma ColumnHeadersLength(cks: seq<string>, vs: seq<ValueSpec>)
    ensures |ColumnHeaders(cks, vs)| == |cks| * |vs|
  {
    ColumnHeadersFlatten(cks, vs);
    FlattenLength(MapSeq(cks, HeaderBlock(vs)), |vs|);
  }

  /** Column keys outer, value specs inner: the header of (cks[j], vs[k]) is
      at j·|vs| + k. */
  lemma ColumnHeadersAt(cks: seq<string>, vs: seq<ValueSpec>, j: nat, k: nat)
    requires j < |cks| && k < |vs|
    ensures 0 <= j * |vs| + k < |ColumnHeaders(cks, vs)| && ColumnHeaders(cks, vs)[j * |vs| + k] == ColumnHeader(cks[j], vs[k])
  {
    var b := MapSeq(cks, HeaderBlock(vs));
    var i := j * |vs| + k;
    var h := ColumnHeaders(cks, vs);
    ColumnHeadersFlatten(cks, vs);
    FlattenAt(b, |vs|, j, k);
    assert 0 <= i < |h|;
    assert h[i] == Flatten(b)[i];
    assert b[j][k] == ColumnHeader(cks[j], vs[k]) by {
      assert b[j] == BlockHeaders(cks[j], vs);
    }
  }

  /** The header row of `performPivot` on a non-empty record list: the row
      fields, then the per-(column key, value spec) headers over the sorted
      column keys when columns are configured, or one label per value spec. */
  lemma HeadersLayout(js: JsRuntime, data: seq<DataRow>, config: PivotConfig)
    requires |data| > 0
    ensures var h := Pivot(js, data, config).headers;
            |h| >= |config.rows| && h[..|config.rows|] == config.rows
    ensures var h := Pivot(js, data, config).headers;
            var sorted := SortedColKeys(js, config, data);
            |config.columns| > 0 ==>
              |h| == |config.rows| + |sorted| * |config.values| &&
              h[|config.rows|..] == ColumnHeaders(sorted, config.values)
    ensures var h := Pivot(js, data, config).headers;
            |config.columns| == 0 ==>
              |h| == |config.rows| + |config.values| &&
              h[|config.rows|..] == SimpleHeaders(config.values)
  {
    var sorted := SortedColKeys(js, config, data);
    PivotParts(js, data, config);
    var h := Headers(config, sorted);
    if |config.columns| > 0 {
      var tail := ColumnHeaders(sorted, config.values);
      ColumnHeadersLength(sorted, config.values);
      assert h == config.rows + tail;
      assert h[|config.rows|..] == tail;
    } else {
      var tail := SimpleHeaders(config.values);
      assert h == config.rows + tail;
      assert h[|config.rows|..] == tail;
    }
    assert h[..|config.rows|] == config.rows;
  }

  /** Without value specs the header row is just the row fields. */
  lemma HeadersWithoutValues(js: JsRuntime, data: seq<DataRow>, config: PivotConfig)
    requires |data| > 0 && config.values == []
    ensures Pivot(js, data, config).headers == config.rows
  {
    HeadersLayout(js, data, config);
  }

  // ---------------------------------------------------------- key orders

  /** The column keys are sorted, duplicate-free, and exactly the column keys
      some record carries. */
  lemma ColumnKeysSorted(js: JsRuntime, config: PivotConfig, data: seq<DataRow>)
    ensures var s := SortedColKeys(js, config, data);
            StrictlySorted(s) && Distinct(s)
    ensures forall ck :: ck in SortedColKeys(js, config, data) <==>
              exists i :: 0 <= i < |data| && GroupKey(js, config.columns, data[i]) == ck
  {
    var ks := Keys(js, config.columns, data);
    SortDistinct(FirstSeen(ks));
    assert forall ck :: ck in SortedColKeys(js, config, data) <==> ck in ks;
    forall ck ensures ck in ks <==> exists i :: 0 <= i < |data| && GroupKey(js, config.columns, data[i]) == ck {
      if ck in ks {
        var i :| 0 <= i < |ks| && ks[i] == ck;
      }
    }
  }

  /** The row groups are duplicate-free, exactly the row keys some record
      carries, and listed in the order in which their first record occurs. */
  lemma RowOrderFirstSeen(js: JsRuntime, config: PivotConfig, data: seq<DataRow>)
    ensures var r := RowOrder(js, config, data);
            Distinct(r) &&
            forall rk :: rk in r <==> exists i :: 0 <= i < |data| && GroupKey(js, config.rows, data[i]) == rk
    ensures var r := RowOrder(js, config, data);
            var ks := Keys(js, config.rows, data);
            forall a, b :: 0 <= a < b < |r| ==> FirstIndex(ks, r[a]) < FirstIndex(ks, r[b])
  {
    var ks := Keys(js, config.rows, data);
    FirstSeenOrder(ks);
    forall rk ensures rk in ks <==> exists i :: 0 <= i < |data| && GroupKey(js, config.rows, data[i]) == rk {
      if rk in ks {
        var i :| 0 <= i < |ks| && ks[i] == rk;
      }
    }
  }

  /** With no row field every record is in the one row group "Total". */
  lemma RowOrderWithoutRows(js: JsRuntime, config: PivotConfig, data: seq<DataRow>)
    requires config.rows == [] && |data| > 0
    ensures RowOrder(js, config, data) == ["Total"]
  {
    var r := RowOrder(js, config, data);
    RowOrderFirstSeen(js, config, data);
    assert GroupKey(js, config.rows, data[0]) == "Total";
    assert "Total" in r;
    assert forall i :: 0 <= i < |r| ==> r[i] == "Total";
    DistinctConstant(r, "Total");
  }

  // ----------------------------------------------------------------- grid

  /** The value cells of a row: one block per column key. */
  lemma {:induction false} BlockCellsFlatten(js: JsRuntime, data: seq<DataRow>, config: PivotConfig, rk: string, cks: seq<string>)
    ensures BlockCells(js, data, config, rk, cks) ==
            Flatten(MapSeq(cks, CellBlock(js, data, config, rk)))
  {
    if cks != [] {
      BlockCellsFlatten(js, data, config, rk, cks[..|cks| - 1]);
    }
  }

  lemma BlockCellsLength(js: JsRuntime, data: seq<DataRow>, config: PivotConfig, rk: string, cks: seq<string>)
    ensures |BlockCells(js, data, config, rk, cks)| == |cks| * |config.values|
  {
    var b := MapSeq(cks, CellBlock(js, data, config, rk));
    BlockCellsFlatten(js, data, config, rk, cks);
    FlattenLength(b, |config.values|);
  }

  /** Column keys outer, value specs inner: the cell of (cks[j], values[k])
      in a row of group `rk` is at j·|values| + k of its value cells. */
  lemma BlockCellsAt(js: JsRuntime, data: seq<DataRow>, config: PivotConfig, rk: string, cks: seq<string>, j: nat, k: nat)
    requires j < |cks| && k < |config.values|
    ensures 0 <= j * |config.values| + k < |BlockCells(js, data, config, rk, cks)| &&
            BlockCells(js, data, config, rk, cks)[j * |config.values| + k] == CellAt(js, data, config, rk, cks[j], config.values[k])
  {
    var b := MapSeq(cks, CellBlock(js, data, config, rk));
    BlockCellsFlatten(js, data, config, rk, cks);
    FlattenAt(b, |config.values|, j, k);
    assert b[j] == ValueCells(js, data, config, rk, cks[j], config.values);
  }

  /** One grid row per row group, in row order; each row is the group's lead
      cells followed by one value cell per (column key, value spec). */
  lemma GridLayout(js: JsRuntime, data: seq<DataRow>, config: PivotConfig)
    requires |data| > 0
    ensures |Pivot(js, data, config).data| == |RowOrder(js, config, data)|
    ensures var g := Pivot(js, data, config).data;
            var rks := RowOrder(js, config, data);
            var cks := IterColKeys(config, SortedColKeys(js, config, data));
            forall i :: 0 <= i < |g| ==>
              |g[i]| == |LeadCells(config, rks[i])| + |cks| * |config.values| &&
              g[i][..|LeadCells(config, rks[i])|] == LeadCells(config, rks[i]) &&
              g[i][|LeadCells(config, rks[i])|..] == BlockCells(js, data, config, rks[i], cks)
  {
    PivotParts(js, data, config);
    var g := Pivot(js, data, config).data;
    var rks := RowOrder(js, config, data);
    var cks := IterColKeys(config, SortedColKeys(js, config, data));
    forall i | 0 <= i < |g|
      ensures |g[i]| == |LeadCells(config, rks[i])| + |cks| * |config.values| &&
              g[i][..|LeadCells(config, rks[i])|] == LeadCells(config, rks[i]) &&
              g[i][|LeadCells(config, rks[i])|..] == BlockCells(js, data, config, rks[i], cks)
    {
      var lead := LeadCells(config, rks[i]);
      var rest := BlockCells(js, data, config, rks[i], cks);
      assert g[i] == lead + rest;
      BlockCellsLength(js, data, config, rks[i], cks);
      assert g[i][..|lead|] == lead;
      assert g[i][|lead|..] == rest;
    }
  }

  /** The lead cells of a record's row group are the key texts of its row
      fields, one per field, provided they survive the "::" round trip. */
  lemma LeadCellsOfRecord(js: JsRuntime, config: PivotConfig, x: DataRow)
    requires |config.rows| > 0 && Separable(KeyParts(js, config.rows, x))
    ensures LeadCells(config, GroupKey(js, config.rows, x)) == TextCells(KeyParts(js, config.rows, x))
    ensures |LeadCells(config, GroupKey(js, config.rows, x))| == |config.rows|
  {
    SplitJoin(KeyParts(js, config.rows, x));
  }

  /** Two records fall in the same group exactly when their key texts agree,
      provided the texts survive the "::" round trip. */
  lemma GroupKeyInjective(js: JsRuntime, fields: seq<string>, x: DataRow, y: DataRow)
    requires |fields| > 0
    requires Separable(KeyParts(js, fields, x)) && Separable(KeyParts(js, fields, y))
    ensures GroupKey(js, fields, x) == GroupKey(js, fields, y) <==> KeyParts(js, fields, x) == KeyParts(js, fields, y)
  {
    SplitJoin(KeyParts(js, fields, x));
    SplitJoin(KeyParts(js, fields, y));
  }

  /** Every grid row is as wide as the header row, when no record's row-key
      texts are broken apart by the "::" split. */
  lemma RowWidth(js: JsRuntime, data: seq<DataRow>, config: PivotConfig, i: nat)
    requires |data| > 0
    requires forall x :: x in data ==> Separable(KeyParts(js, config.rows, x))
    requires i < |RowOrder(js, config, data)|
    ensures i < |Pivot(js, data, config).data|
    ensures |Pivot(js, data, config).data[i]| == |Pivot(js, data, config).headers|
  {
    var rks := RowOrder(js, config, data);
    var sorted := SortedColKeys(js, config, data);
    var cks := IterColKeys(config, sorted);
    var n := |config.values|;
    PivotParts(js, data, config);
    var row := GridRow(js, data, config, rks[i], cks);
    assert Pivot(js, data, config).data[i] == row;
    BlockCellsLength(js, data, config, rks[i], cks);
    LeadWidth(js, data, config, rks[i]);
    assert |row| == |config.rows| + |cks| * n;
    if |config.columns| > 0 {
      ColumnHeadersLength(sorted, config.values);
      assert |Headers(config, sorted)| == |config.rows| + |sorted| * n;
    } else {
      assert |Headers(config, sorted)| == |config.rows| + n;
      assert |cks| * n == 1 * n == n;
    }
  }

  /** A row group's lead cells number the row fields. */
  lemma LeadWidth(js: JsRuntime, data: seq<DataRow>, config: PivotConfig, rk: string)
    requires forall x :: x in data ==> Separable(KeyParts(js, config.rows, x))
    requires rk in RowOrder(js, config, data)
    ensures |LeadCells(config, rk)| == |config.rows|
  {
    RowOrderFirstSeen(js, config, data);
    var r :| 0 <= r < |data| && GroupKey(js, config.rows, data[r]) == rk;
    if |config.rows| > 0 {
      LeadCellsOfRecord(js, config, data[r]);
    }
  }

  /** A row value containing "::" yields one lead cell per piece: one row
      field, two lead cells, one header. */
  lemma RowWidthCounterexample(js: JsRuntime)
    ensures var data := [DataRow([("region", Str("x::y"))])];
            var config := PivotConfig(["region"], [], []);
            Pivot(js, data, config).headers == ["region"] &&
            Pivot(js, data, config).data == [[Text("x"), Text("y")]]
  {
    var data := [DataRow([("region", Str("x::y"))])];
    var config := PivotConfig(["region"], [], []);
    PivotParts(js, data, config);
    ExampleKeys(js);
    ExampleRow(js, data, config);
    var g := GridRows(js, data, config, ["x::y"], ["Total"]);
    assert |g| == 1 && g[0] == [Text("x"), Text("y")];
  }

  lemma ExampleRow(js: JsRuntime, data: seq<DataRow>, config: PivotConfig)
    requires config.rows == ["region"] && config.values == []
    ensures GridRow(js, data, config, "x::y", ["Total"]) == [Text("x"), Text("y")]
  {
    SplitExample();
    var lead := LeadCells(config, "x::y");
    assert |lead| == 2 && lead[0] == Text("x") && lead[1] == Text("y");
    BlockCellsLength(js, data, config, "x::y", ["Total"]);
  }

  lemma ExampleKeys(js: JsRuntime)
    ensures Keys(js, ["region"], [DataRow([("region", Str("x::y"))])]) == ["x::y"]
  {
    var row := DataRow([("region", Str("x::y"))]);
    assert Get(row, "region") == Some(Str("x::y"));
    assert KeyParts(js, ["region"], row) == ["x::y"];
  }

  lemma SplitExample()
    ensures Split("x::y") == ["x", "y"]
  {
    var s := "x::y";
    assert SepAt(s, 1);
    assert !SepAt(s, 0);
    assert FindSep(s, 0) == Some(1);
    assert s[..1] == "x";
    assert s[3..] == "y";
    assert FindSep("y", 0) == None;
  }

  /** With neither row nor column fields the grid is one row of value cells
      over the whole input. */
  lemma GrandTotalOnly(js: JsRuntime, data: seq<DataRow>, config: PivotConfig)
    requires |data| > 0 && config.rows == [] && config.columns == []
    ensures Bucket(js, config, data, "Total", "Total") == data
    ensures Pivot(js, data, config).data == [ValueCells(js, data, config, "Total", "Total", config.values)]
  {
    FilterAll(js, config.rows, data, "Total");
    FilterAll(js, config.columns, data, "Total");
    RowOrderWithoutRows(js, config, data);
    PivotParts(js, data, config);
    var cells := ValueCells(js, data, config, "Total", "Total", config.values);
    assert BlockCells(js, data, config, "Total", ["Total"]) == cells by {
      assert ["Total"][..0] == [];
    }
    assert GridRow(js, data, config, "Total", ["Total"]) == cells;
    assert GridRows(js, data, config, ["Total"], ["Total"]) == [cells];
  }

  /** When every record carries key `k`, filtering by `k` keeps them all. */
  lemma {:induction false} FilterAll(js: JsRuntime, fields: seq<string>, data: seq<DataRow>, k: string)
    requires forall x :: x in data ==> GroupKey(js, fields, x) == k
    ensures FilterBy(js, fields, data, k) == data
  {
    if data != [] {
      var init := data[..|data| - 1];
      var last := data[|data| - 1];
      assert data == init + [last];
      assert forall x :: x in init ==> x in data;
      FilterAll(js, fields, init, k);
      FilterBySnoc(js, fields, init, last, k);
    }
  }

  /** Filtering keeps every copy of a record with key `k` and no copy of
      any other record. */
  lemma {:induction false} FilterByCounts(js: JsRuntime, fields: seq<string>, data: seq<DataRow>, k: string, x: DataRow)
    ensures multiset(FilterBy(js, fields, data, k))[x] == if GroupKey(js, fields, x) == k then multiset(data)[x] else 0
  {
    if data != [] {
      var init := data[..|data| - 1];
      var last := data[|data| - 1];
      assert data == init + [last];
      FilterByCounts(js, fields, init, k, x);
      FilterBySnoc(js, fields, init, last, k);
      assert multiset(data) == multiset(init) + multiset{last};
    }
  }

  /** A bucket holds every copy of each record with its two keys, and
      nothing else: the node map's cells count the records exactly. */
  lemma BucketCounts(js: JsRuntime, config: PivotConfig, data: seq<DataRow>, rk: string, ck: string, x: DataRow)
    ensures multiset(Bucket(js, config, data, rk, ck))[x] ==
            if GroupKey(js, config.rows, x) == rk && GroupKey(js, config.columns, x) == ck then multiset(data)[x] else 0
  {
    FilterByCounts(js, config.rows, data, rk, x);
    FilterByCounts(js, config.columns, FilterBy(js, config.rows, data, rk), ck, x);
  }
}
