/** What the aggregation of `performPivot` (src/utils/pivotEngine.ts)
    promises: the buckets split the records without loss or overlap, so any
    per-record quantity summed over all buckets is its sum over the input;
    hence the bucket sizes add up to the record count, the field sums to the
    grand total, and the percentage shares to 100. */
module PivotTotals {
  import opened PivotTypes
  import opened JsValues
  import opened Seqs
  import opened PivotSpec
  import opened PivotEngine
  import opened PivotProperties

  // --------------------------------------------------------------- sums

  /** The sum of a per-record quantity `w` over `xs`. */
  function SumOver(xs: seq<DataRow>, w: DataRow -> real): real
  {
    if xs == [] then 0.0 else SumOver(xs[..|xs| - 1], w) + w(xs[|xs| - 1])
  }

  lemma SumOverSnoc(xs: seq<DataRow>, x: DataRow, w: DataRow -> real)
    ensures SumOver(xs + [x], w) == SumOver(xs, w) + w(x)
  {
    assert (xs + [x])[..|xs|] == xs;
  }

  /** Summing `rows.map(w)` is summing `w` over the rows. */
  lemma {:induction false} SumOfMap(xs: seq<DataRow>, w: DataRow -> real)
    ensures SumOf(MapSeq(xs, w)) == SumOver(xs, w)
  {
    if xs != [] {
      var init := xs[..|xs| - 1];
      SumOfMap(init, w);
      var m := MapSeq(xs, w);
      assert m[..|m| - 1] == MapSeq(init, w);
    }
  }

  /** Counting one per record. */
  function One(): DataRow -> real
  {
    _ => 1.0
  }

  lemma {:induction false} SumOverOne(xs: seq<DataRow>)
    ensures SumOver(xs, One()) == |xs| as real
  {
    if xs != [] {
      SumOverOne(xs[..|xs| - 1]);
    }
  }

  // ------------------------------------------------------------ grouping

  /** The sum of `w` over the records of each key of `ks`, added up. */
  function KeySums(js: JsRuntime, fields: seq<string>, data: seq<DataRow>, ks: seq<string>, w: DataRow -> real): real
  {
    if ks == [] then 0.0
    else KeySums(js, fields, data, ks[..|ks| - 1], w) + SumOver(FilterBy(js, fields, data, ks[|ks| - 1]), w)
  }

  lemma {:induction false} KeySumsEmpty(js: JsRuntime, fields: seq<string>, ks: seq<string>, w: DataRow -> real)
    ensures KeySums(js, fields, [], ks, w) == 0.0
  {
    if ks != [] {
      KeySumsEmpty(js, fields, ks[..|ks| - 1], w);
    }
  }

  /** A new record adds its own weight to the one key group it falls in. */
  lemma {:induction false} KeySumsSnoc(js: JsRuntime, fields: seq<string>, data: seq<DataRow>, x: DataRow, ks: seq<string>, w: DataRow -> real)
    requires Distinct(ks)
    ensures KeySums(js, fields, data + [x], ks, w) ==
            KeySums(js, fields, data, ks, w) + if GroupKey(js, fields, x) in ks then w(x) else 0.0
  {
    if ks != [] {
      var init := ks[..|ks| - 1];
      var last := ks[|ks| - 1];
      assert ks == init + [last];
      DistinctSnoc(init, last);
      KeySumsSnoc(js, fields, data, x, init, w);
      FilterBySnoc(js, fields, data, x, last);
      var a := FilterBy(js, fields, data, last);
      if GroupKey(js, fields, x) == last {
        SumOverSnoc(a, x, w);
      } else {
        assert a + [] == a;
      }
    }
  }

  /** Grouping by a duplicate-free list of keys that holds every record's key
      loses and duplicates nothing. */
  lemma {:induction false} KeySumsPartition(js: JsRuntime, fields: seq<string>, data: seq<DataRow>, ks: seq<string>, w: DataRow -> real)
    requires Distinct(ks)
    requires forall x :: x in data ==> GroupKey(js, fields, x) in ks
    ensures KeySums(js, fields, data, ks, w) == SumOver(data, w)
  {
    if data == [] {
      KeySumsEmpty(js, fields, ks, w);
    } else {
      var init := data[..|data| - 1];
      var x := data[|data| - 1];
      assert data == init + [x];
      assert forall y :: y in init ==> y in data;
      KeySumsPartition(js, fields, init, ks, w);
      KeySumsSnoc(js, fields, init, x, ks, w);
    }
  }

  /** The sum of `w` over the buckets (rk, ck) of one row key, ck from `cks`. */
  function RowBucketSums(js: JsRuntime, config: PivotConfig, data: seq<DataRow>, rk: string, cks: seq<string>, w: DataRow -> real): real
  {
    if cks == [] then 0.0
    else RowBucketSums(js, config, data, rk, cks[..|cks| - 1], w) + SumOver(Bucket(js, config, data, rk, cks[|cks| - 1]), w)
  }

  /** The sum of `w` over every bucket (rk, ck), rk from `rks` and ck from `cks`. */
  function BucketSums(js: JsRuntime, config: PivotConfig, data: seq<DataRow>, rks: seq<string>, cks: seq<string>, w: DataRow -> real): real
  {
    if rks == [] then 0.0
    else BucketSums(js, config, data, rks[..|rks| - 1], cks, w) + RowBucketSums(js, config, data, rks[|rks| - 1], cks, w)
  }

  /** A row's buckets are the column groups of the row group's records. */
  lemma {:induction false} RowBucketSumsByColumn(js: JsRuntime, config: PivotConfig, data: seq<DataRow>, rk: string, cks: seq<string>, w: DataRow -> real)
    ensures RowBucketSums(js, config, data, rk, cks, w) ==
            KeySums(js, config.columns, FilterBy(js, config.rows, data, rk), cks, w)
  {
    if cks != [] {
      RowBucketSumsByColumn(js, config, data, rk, cks[..|cks| - 1], w);
    }
  }

  lemma {:induction false} BucketSumsRows(js: JsRuntime, config: PivotConfig, data: seq<DataRow>, rks: seq<string>, cks: seq<string>, w: DataRow -> real)
    requires Distinct(cks)
    requires forall x :: x in data ==> GroupKey(js, config.columns, x) in cks
    ensures BucketSums(js, config, data, rks, cks, w) == KeySums(js, config.rows, data, rks, w)
  {
    if rks != [] {
      var rk := rks[|rks| - 1];
      BucketSumsRows(js, config, data, rks[..|rks| - 1], cks, w);
      RowBucketSumsByColumn(js, config, data, rk, cks, w);
      KeySumsPartition(js, config.columns, FilterBy(js, config.rows, data, rk), cks, w);
    }
  }

  /** Over the row groups and column keys of the grid, the buckets hold every
      record exactly once: any per-record quantity summed bucket by bucket
      is its sum over the input. */
  lemma BucketsPartition(js: JsRuntime, config: PivotConfig, data: seq<DataRow>, w: DataRow -> real)
    ensures BucketSums(js, config, data, RowOrder(js, config, data),
                       IterColKeys(config, SortedColKeys(js, config, data)), w) == SumOver(data, w)
  {
    var rks := RowOrder(js, config, data);
    var cks := IterColKeys(config, SortedColKeys(js, config, data));
    RowOrderFirstSeen(js, config, data);
    forall x | x in data ensures GroupKey(js, config.rows, x) in rks {
      var i :| 0 <= i < |data| && data[i] == x;
    }
    if |config.columns| > 0 {
      ColumnKeysSorted(js, config, data);
      forall x | x in data ensures GroupKey(js, config.columns, x) in cks {
        var i :| 0 <= i < |data| && data[i] == x;
      }
    } else {
      assert forall x :: GroupKey(js, config.columns, x) == "Total";
    }
    BucketSumsRows(js, config, data, rks, cks, w);
    KeySumsPartition(js, config.rows, data, rks, w);
  }

  /** The bucket sizes add up to the number of records. */
  lemma BucketSizesSum(js: JsRuntime, config: PivotConfig, data: seq<DataRow>)
    ensures BucketSums(js, config, data, RowOrder(js, config, data),
                       IterColKeys(config, SortedColKeys(js, config, data)), One()) == |data| as real
  {
    BucketsPartition(js, config, data, One());
    SumOverOne(data);
  }

  /** The bucket sums of a field add up to its grand total. */
  lemma FieldSumsTotal(js: JsRuntime, config: PivotConfig, data: seq<DataRow>, f: string)
    ensures BucketSums(js, config, data, RowOrder(js, config, data),
                       IterColKeys(config, SortedColKeys(js, config, data)), FieldNumber(js, f)) ==
            SumOf(FieldValues(js, data, f))
  {
    BucketsPartition(js, config, data, FieldNumber(js, f));
    SumOfMap(data, FieldNumber(js, f));
  }

  // ----------------------------------------------------------- aggregates

  /** A count cell holds the bucket size, 0 for an empty bucket included. */
  lemma CountCell(js: JsRuntime, data: seq<DataRow>, config: PivotConfig, rk: string, ck: string, f: string)
    ensures CellAt(js, data, config, rk, ck, ValueSpec(f, Count)) == Number(|Bucket(js, config, data, rk, ck)| as real)
  {
  }

  /** A sum aggregate is the field's sum over the bucket. */
  lemma SumAggregate(js: JsRuntime, bucket: seq<DataRow>, f: string, total: real)
    requires |bucket| > 0 && total != 0.0
    ensures Aggregate(js, bucket, ValueSpec(f, Sum), total) == SumOver(bucket, FieldNumber(js, f))
  {
    SumOfMap(bucket, FieldNumber(js, f));
  }

  /** A record's share of the grand total `t`, in percent. */
  function Share(js: JsRuntime, f: string, t: real): DataRow -> real
    requires t != 0.0
  {
    r => ToNumber(js, Get(r, f)) / t * 100.0
  }

  lemma ShareAdd(a: real, b: real, t: real)
    requires t != 0.0
    ensures a / t * 100.0 + b / t * 100.0 == (a + b) / t * 100.0
  {
  }

  /** Summing shares is taking the share of the sum. */
  lemma SumOverShare(js: JsRuntime, xs: seq<DataRow>, f: string, t: real)
    requires t != 0.0
    ensures SumOver(xs, Share(js, f, t)) == SumOver(xs, FieldNumber(js, f)) / t * 100.0
  {
    SumOverScaled(xs, FieldNumber(js, f), Share(js, f, t), t);
  }

  lemma {:induction false} SumOverScaled(xs: seq<DataRow>, w: DataRow -> real, u: DataRow -> real, t: real)
    requires t != 0.0
    requires forall x :: u(x) == w(x) / t * 100.0
    ensures SumOver(xs, u) == SumOver(xs, w) / t * 100.0
  {
    if xs != [] {
      var init := xs[..|xs| - 1];
      var x := xs[|xs| - 1];
      SumOverScaled(init, w, u, t);
      ShareAdd(SumOver(init, w), w(x), t);
    }
  }

  /** The unrounded value of a percentage cell with denominator `t` is the
      sum of its records' shares of `t`. */
  lemma PercentageAggregate(js: JsRuntime, bucket: seq<DataRow>, f: string, t: real)
    requires |bucket| > 0 && t != 0.0
    ensures Aggregate(js, bucket, ValueSpec(f, Percentage), t) == SumOver(bucket, Share(js, f, t))
  {
    PercentageValue(js, bucket, f, t);
    SumOfMap(bucket, FieldNumber(js, f));
    SumOverShare(js, bucket, f, t);
  }

  lemma PercentageValue(js: JsRuntime, bucket: seq<DataRow>, f: string, t: real)
    requires |bucket| > 0 && t != 0.0
    ensures Aggregate(js, bucket, ValueSpec(f, Percentage), t) == SumOf(FieldValues(js, bucket, f)) / t * 100.0
  {
  }

  lemma AverageValue(js: JsRuntime, bucket: seq<DataRow>, f: string, t: real)
    requires |bucket| > 0 && t != 0.0
    ensures Aggregate(js, bucket, ValueSpec(f, Average), t) == SumOf(FieldValues(js, bucket, f)) / (|bucket| as real)
  {
  }

  /** A non-empty sum cell holds the bucket's field sum, rounded to
      hundredths. */
  lemma SumCell(js: JsRuntime, data: seq<DataRow>, config: PivotConfig, rk: string, ck: string, f: string)
    requires |Bucket(js, config, data, rk, ck)| > 0
    ensures CellAt(js, data, config, rk, ck, ValueSpec(f, Sum)) ==
            Number(Round2(SumOver(Bucket(js, config, data, rk, ck), FieldNumber(js, f))))
  {
    SumAggregate(js, Bucket(js, config, data, rk, ck), f, 1.0);
  }

  /** A non-empty average cell holds the bucket's field sum divided by the
      bucket size, rounded to hundredths. */
  lemma AverageCell(js: JsRuntime, data: seq<DataRow>, config: PivotConfig, rk: string, ck: string, f: string)
    requires |Bucket(js, config, data, rk, ck)| > 0
    ensures var b := Bucket(js, config, data, rk, ck);
            CellAt(js, data, config, rk, ck, ValueSpec(f, Average)) ==
            Number(Round2(SumOver(b, FieldNumber(js, f)) / (|b| as real)))
  {
    var b := Bucket(js, config, data, rk, ck);
    AverageValue(js, b, f, 1.0);
    SumOfMap(b, FieldNumber(js, f));
  }

  /** A non-empty max cell holds the largest field value of the bucket,
      rounded to hundredths. */
  lemma MaxCell(js: JsRuntime, data: seq<DataRow>, config: PivotConfig, rk: string, ck: string, f: string)
    requires |Bucket(js, config, data, rk, ck)| > 0
    ensures CellAt(js, data, config, rk, ck, ValueSpec(f, Max)) ==
            Number(Round2(MaxOf(FieldValues(js, Bucket(js, config, data, rk, ck), f))))
  {
    MaxValue(js, Bucket(js, config, data, rk, ck), f, TotalFor(js, data, ValueSpec(f, Max)));
  }

  lemma MaxValue(js: JsRuntime, b: seq<DataRow>, f: string, t: real)
    requires |b| > 0 && t != 0.0
    ensures CellFor(js, b, ValueSpec(f, Max), t) == Number(Round2(MaxOf(FieldValues(js, b, f))))
  {
  }

  /** A non-empty min cell holds the smallest field value of the bucket,
      rounded to hundredths. */
  lemma MinCell(js: JsRuntime, data: seq<DataRow>, config: PivotConfig, rk: string, ck: string, f: string)
    requires |Bucket(js, config, data, rk, ck)| > 0
    ensures CellAt(js, data, config, rk, ck, ValueSpec(f, Min)) ==
            Number(Round2(MinOf(FieldValues(js, Bucket(js, config, data, rk, ck), f))))
  {
    MinValue(js, Bucket(js, config, data, rk, ck), f, TotalFor(js, data, ValueSpec(f, Min)));
  }

  lemma MinValue(js: JsRuntime, b: seq<DataRow>, f: string, t: real)
    requires |b| > 0 && t != 0.0
    ensures CellFor(js, b, ValueSpec(f, Min), t) == Number(Round2(MinOf(FieldValues(js, b, f))))
  {
  }

  /** A non-empty percentage cell is the text `toFixed(2)` of the bucket's
      share of the grand total, followed by "% ". */
  lemma PercentageCell(js: JsRuntime, data: seq<DataRow>, config: PivotConfig, rk: string, ck: string, f: string)
    requires |Bucket(js, config, data, rk, ck)| > 0
    ensures CellAt(js, data, config, rk, ck, ValueSpec(f, Percentage)) ==
            Text(ToFixed2(SumOver(Bucket(js, config, data, rk, ck), Share(js, f, Denominator(js, data, f)))) + "% ")
  {
    PercentageAggregate(js, Bucket(js, config, data, rk, ck), f, Denominator(js, data, f));
  }

  /** The percentage shares over all buckets add up to 100, or to 0 when the
      field's grand total is 0 (the denominator is then 1). */
  lemma PercentagesSum(js: JsRuntime, config: PivotConfig, data: seq<DataRow>, f: string)
    ensures var t := Denominator(js, data, f);
            var s := BucketSums(js, config, data, RowOrder(js, config, data),
                                IterColKeys(config, SortedColKeys(js, config, data)), Share(js, f, t));
            s == if SumOf(FieldValues(js, data, f)) == 0.0 then 0.0 else 100.0
  {
    var t := Denominator(js, data, f);
    var total := SumOf(FieldValues(js, data, f));
    BucketsPartition(js, config, data, Share(js, f, t));
    SumOverShare(js, data, f, t);
    SumOfMap(data, FieldNumber(js, f));
    WholeShare(total, t);
  }

  lemma WholeShare(s: real, t: real)
    requires t == if s == 0.0 then 1.0 else s
    ensures s / t * 100.0 == if s == 0.0 then 0.0 else 100.0
  {
  }

  lemma {:induction false} SumBounds(xs: seq<real>, lo: real, hi: real)
    requires forall i :: 0 <= i < |xs| ==> lo <= xs[i] <= hi
    ensures |xs| as real * lo <= SumOf(xs) <= |xs| as real * hi
  {
    if xs != [] {
      var init := xs[..|xs| - 1];
      assert forall i :: 0 <= i < |init| ==> init[i] == xs[i];
      SumBounds(init, lo, hi);
      assert |xs| as real * lo == |init| as real * lo + lo;
      assert |xs| as real * hi == |init| as real * hi + hi;
    }
  }

  lemma DivBounds(s: real, n: real, lo: real, hi: real)
    requires n > 0.0 && n * lo <= s <= n * hi
    ensures lo <= s / n <= hi
  {
  }

  /** An average lies between the bucket's minimum and maximum. */
  lemma AverageBetween(js: JsRuntime, bucket: seq<DataRow>, f: string, total: real)
    requires |bucket| > 0 && total != 0.0
    ensures var vals := FieldValues(js, bucket, f);
            MinOf(vals) <= Aggregate(js, bucket, ValueSpec(f, Average), total) <= MaxOf(vals)
  {
    var vals := FieldValues(js, bucket, f);
    AverageValue(js, bucket, f, total);
    assert |vals| == |bucket|;
    MeanBetween(vals);
  }

  /** The mean of a non-empty list lies between its minimum and maximum. */
  lemma MeanBetween(xs: seq<real>)
    requires |xs| > 0
    ensures MinOf(xs) <= SumOf(xs) / (|xs| as real) <= MaxOf(xs)
  {
    MeanBounds(xs, MinOf(xs), MaxOf(xs));
  }

  lemma MeanBounds(xs: seq<real>, lo: real, hi: real)
    requires |xs| > 0
    requires forall i :: 0 <= i < |xs| ==> lo <= xs[i] <= hi
    ensures lo <= SumOf(xs) / (|xs| as real) <= hi
  {
    SumBounds(xs, lo, hi);
    DivBounds(SumOf(xs), |xs| as real, lo, hi);
  }
}
