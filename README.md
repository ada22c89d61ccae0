# smart-pivot: the pivot engine and its configuration, in Dafny

This project models the core of a browser pivot-table tool called smart-pivot.

- `performPivot` takes a list of records (`DataRow`s) and a configuration. The configuration has row fields, column fields and value measures, where a value is a field plus an aggregator. The function groups the records by their row key and their column key, then builds a header line and one grid row per row key.
- `getColumns` lists the field names of the first record.
- The `usePivotLogic` hook holds the configuration. Its actions are toggling a row or column field, adding, removing and re-aggregating a value, and the drag-and-drop drop handler. Each action replaces the configuration.

Modules:

- `PivotTypes`: records, scalars, configurations, cells and results.
- `Seqs`: duplicate-freedom, first-seen order (what a `Set` or a string-keyed object keeps), `MapSeq` and `Flatten`.
- `Strings`: `join('::')`, `split('::')`, character-by-character lexicographic order and the sort behind `Array.prototype.sort()`.
- `JsValues`: the JavaScript coercions the engine uses: truthiness, `String(v || '(Empty)')`, `Number(v) || 0`, `Math.round(x*100)/100` and `toFixed(2)`.
- `PivotSpec`: a functional reference definition of `performPivot`. It has grouping keys, buckets, row order, sorted column keys, headers, aggregates and grid rows.
- `PivotEngine`: `performPivot` written as the source writes it. The grouping pass, the header pass, the grand-total pass and the grid pass are imperative loops, each proved equal to the reference. It also holds `getColumns`.
- `PivotProperties`: lemmas about the reference output. They cover the header layout and count, the row widths, the key order, the `(Empty)`/`Total` rules, and a counterexample.
- `PivotTotals`: lemmas about sums over the buckets. The bucket sizes add up to the number of records, count cells equal the bucket sizes, the percentages add up to 100, and an average lies between the minimum and the maximum.
- `ConfigActions`: the configuration transitions as pure functions, with their invariants.
- `PivotLogic`: the hook as a class `PivotSession`. Its `config` field is reassigned by each action, and it has the two derived values.

## Model

| member | source | states |
|---|---|---|
| PivotEngine.PerformPivot | src/utils/pivotEngine.ts:4-144 | the imperative pivot equals the reference `Pivot`, and empty input gives empty headers and an empty grid |
| PivotEngine.GroupRecords | src/utils/pivotEngine.ts:14-29 | after the pass, the row keys are listed in first-seen order, the column-key set is the first-seen list of the records' column keys, the node map holds exactly the listed row keys, and every (row key, column key) cell holds exactly the records with those keys, in input order |
| PivotEngine.AddRecord | src/utils/pivotEngine.ts:15-28 | handling one record extends the grouping invariant from the records seen so far to one record more |
| PivotEngine.PushRecord | src/utils/pivotEngine.ts:25-28 | the record is appended to its own cell; the row key is added to the map; every other cell is unchanged |
| PivotEngine.BuildHeaders | src/utils/pivotEngine.ts:37-57 | the header pass yields the reference header line for the configuration and the sorted column keys |
| PivotEngine.PushColumnHeaders | src/utils/pivotEngine.ts:41-48 | the nested loops append one block of value headers per sorted column key |
| PivotEngine.PushBlockHeaders | src/utils/pivotEngine.ts:42-47 | inside one column key, one `colKey - label ` header is appended per value |
| PivotEngine.PushSimpleHeaders | src/utils/pivotEngine.ts:51-56 | without column fields, one label per value is appended |
| PivotEngine.GrandTotals | src/utils/pivotEngine.ts:61-69 | every stored total is the field's sum over all records, or 1 when that sum is 0, and every percentage field has one |
| PivotEngine.PercentageTotals | src/utils/pivotEngine.ts:63-68 | the loop over the values stores exactly such totals, for every percentage value |
| PivotEngine.BuildRow | src/utils/pivotEngine.ts:75-137 | the grid row built for a row key is the row's split key parts (when there are row fields), followed by the value cells of every column key to iterate |
| PivotEngine.PushValueCells | src/utils/pivotEngine.ts:95-134 | for one column key, one cell per value is appended, computed from that key's bucket |
| PivotEngine.GetColumns | src/utils/pivotEngine.ts:147-150 | no records give no names; otherwise the names are the first record's keys, in order, one per entry |
| PivotTypes.Get | src/utils/pivotEngine.ts:16 | `row[f]` is present exactly when some entry has key f, and then it is that entry's value |
| JsValues.KeyText | src/utils/pivotEngine.ts:16 | a falsy value gives `(Empty)`; a non-empty string gives itself; `true` gives `true`; a non-zero number gives its `String` |
| JsValues.ToNumber | src/utils/pivotEngine.ts:101 | `Number(v) \|\| 0`: falsy or missing gives 0, `true` gives 1, a number gives itself, a non-empty string gives the runtime's `Number` of it |
| JsValues.Round2 | src/utils/pivotEngine.ts:132 | the result is a whole number of hundredths and lies in (x − ½/100, x + ½/100], so it is the nearest hundredth with ties going up; a value already on a hundredth is unchanged |
| JsValues.Round2Unique | src/utils/pivotEngine.ts:132 | any whole number of hundredths in that half-open interval is the rounded value, so the contract of Round2 determines it |
| JsValues.Round2Nat | src/utils/pivotEngine.ts:132 | rounding leaves whole numbers, such as counts, unchanged |
| JsValues.NatToDecimal | src/features/pivot/usePivotLogic.ts:107-108 | the decimal text of n is non-empty, all digits, reads back as n, and starts with `0` only for n = 0 |
| JsValues.Hundredths | src/utils/pivotEngine.ts:130 | the digits of `toFixed(2)` are the value times 100, rounded half up, padded to three digits and without a leading zero beyond that |
| JsValues.FixedBody | src/utils/pivotEngine.ts:130 | `toFixed(2)` of a non-negative value has at least one digit, a point, and exactly two digits after it; the digits read (y·100 + ½) rounded down; the integer part has a leading `0` only when it is just `0` |
| JsValues.ToFixed2 | src/utils/pivotEngine.ts:130 | a negative value gets a `-` before the text of its magnitude; a non-negative one has no sign |
| Strings.FindSep | src/utils/pivotEngine.ts:79 | the `::` search finds the first separator at or after the start, or reports that there is none |
| Strings.SplitJoin | src/utils/pivotEngine.ts:16 | splitting a `::`-joined key gives its parts back when no part contains `::` and no part but the last ends in `:` |
| Strings.SplitJoinColonCounterexample | src/utils/pivotEngine.ts:79 | the parts `a:` and `:b` contain no `::`, but their key splits into three parts |
| Strings.LexLessIrreflexive | src/utils/pivotEngine.ts:32 | the default sort order is irreflexive |
| Strings.LexLessTransitive | src/utils/pivotEngine.ts:32 | the default sort order is transitive |
| Strings.LexLessTotal | src/utils/pivotEngine.ts:32 | any two different strings are ordered one way or the other |
| Strings.LexLessAsymmetric | src/utils/pivotEngine.ts:32 | the default sort order is asymmetric |
| Strings.Insert | src/utils/pivotEngine.ts:32 | inserting into a sorted list keeps it sorted and adds exactly the one element |
| Strings.Sort | src/utils/pivotEngine.ts:32 | the sort output is sorted and is a permutation of its input |
| Strings.InsertDistinct | src/utils/pivotEngine.ts:32 | inserting a new element into a duplicate-free sorted list keeps it duplicate-free |
| Strings.SortDistinct | src/utils/pivotEngine.ts:32 | sorting distinct keys gives a strictly increasing list |
| Seqs.FirstSeen | src/utils/pivotEngine.ts:23 | the `Set` of column keys holds each key once, and holds exactly the keys added |
| Seqs.FirstSeenOrder | src/utils/pivotEngine.ts:23 | the set lists its keys by increasing first occurrence |
| Seqs.FirstSeenSnoc | src/utils/pivotEngine.ts:23 | adding a key extends the set only when the key is new |
| Seqs.DistinctCounts | src/features/pivot/usePivotLogic.ts:78-84 | a list is duplicate-free exactly when every element occurs at most once in its multiset |
| Seqs.MapSeq | src/utils/pivotEngine.ts:101 | `map` keeps the length and applies the function at every index |
| Seqs.FlattenAt | src/utils/pivotEngine.ts:41-48 | in blocks of equal width n, element k of block j sits at position j·n + k |
| PivotSpec.Keys | src/utils/pivotEngine.ts:14-21 | one key per record, each being that record's group key |
| PivotSpec.FilterBy | src/utils/pivotEngine.ts:25-28 | exactly the records with the given group key |
| PivotSpec.Bucket | src/utils/pivotEngine.ts:25-28 | a cell of the node map holds exactly the records with that row key and that column key |
| PivotSpec.MaxOf | src/utils/pivotEngine.ts:115 | `Math.max` of a non-empty list is an element of it and is at least every element |
| PivotSpec.MinOf | src/utils/pivotEngine.ts:118 | `Math.min` of a non-empty list is an element of it and is at most every element |
| PivotSpec.Denominator | src/utils/pivotEngine.ts:65-66 | the grand total of a field is its sum, or 1 when the sum is 0; it is never 0 |
| PivotSpec.TotalFor | src/utils/pivotEngine.ts:123 | the divisor that a value's cells use is never 0 |
| PivotSpec.CellFor | src/utils/pivotEngine.ts:96-133 | an empty bucket gives the number 0; a count gives the bucket size; a cell is text exactly for a percentage over a non-empty bucket (the value of each other kind of cell is stated by the PivotTotals cell lemmas) |
| PivotSpec.GridRows | src/utils/pivotEngine.ts:74-138 | one grid row per row key, in row-key order |
| PivotProperties.ColumnHeadersLength | src/utils/pivotEngine.ts:41-48 | the column headers number (column keys) × (values) |
| PivotProperties.ColumnHeadersAt | src/utils/pivotEngine.ts:41-48 | header j·\|values\| + k of the column part is column key j with value k |
| PivotProperties.HeadersLayout | src/utils/pivotEngine.ts:37-57 | the headers start with the row fields; then come (column keys × values) column headers when there are column fields, or one label per value when there are none |
| PivotProperties.HeadersWithoutValues | src/utils/pivotEngine.ts:37-57 | with no values, the header line is the row fields alone |
| PivotProperties.ColumnKeysSorted | src/utils/pivotEngine.ts:23-32 | the sorted column keys are strictly increasing and duplicate-free, and a key is listed exactly when some record has it |
| PivotProperties.RowOrderFirstSeen | src/utils/pivotEngine.ts:74 | the grid's row keys are duplicate-free, are exactly the records' row keys, and appear in order of first occurrence |
| PivotProperties.RowOrderWithoutRows | src/utils/pivotEngine.ts:15-17 | with no row fields, the only row key is `Total` |
| PivotProperties.BlockCellsLength | src/utils/pivotEngine.ts:92-135 | the value cells of a grid row number (column keys) × (values) |
| PivotProperties.BlockCellsAt | src/utils/pivotEngine.ts:92-135 | value cell j·\|values\| + k is the cell of column key j and value k |
| PivotProperties.GridLayout | src/utils/pivotEngine.ts:74-138 | every grid row is its split row key followed by (column keys × values) cells |
| PivotProperties.LeadCellsOfRecord | src/utils/pivotEngine.ts:78-79 | when a record's key parts can be told apart, its row's leading cells are exactly those parts, one per row field |
| PivotProperties.GroupKeyInjective | src/utils/pivotEngine.ts:15-17 | under the same condition, two records share a row key exactly when their key parts agree |
| PivotProperties.LeadWidth | src/utils/pivotEngine.ts:78-79 | a grid row has one leading cell per row field when the key parts can be told apart |
| PivotProperties.RowWidth | src/utils/pivotEngine.ts:37-138 | every grid row is as wide as the header line when the key parts can be told apart |
| PivotProperties.RowWidthCounterexample | src/utils/pivotEngine.ts:79 | a row value `x::y` splits into two leading cells under one header, so that row is wider than the header line |
| PivotProperties.GrandTotalOnly | src/utils/pivotEngine.ts:15-21 | with no row and no column fields, the one bucket is all of the data and the grid is a single row of value cells |
| PivotProperties.FilterAll | src/utils/pivotEngine.ts:15-17 | when every record has the same key, grouping by it keeps them all |
| PivotProperties.FilterByCounts | src/utils/pivotEngine.ts:25-28 | filtering by a key keeps every copy of each record with that key and no copy of any other record |
| PivotProperties.BucketCounts | src/utils/pivotEngine.ts:25-28 | a node-map cell holds each record with its row key and column key exactly as often as the data does, and no other record |
| PivotTotals.SumOfMap | src/utils/pivotEngine.ts:101-106 | summing the mapped field values is the sum of the field over the records |
| PivotTotals.KeySumsPartition | src/utils/pivotEngine.ts:14-29 | over a duplicate-free list of keys that covers every record, the per-key sums add up to the sum over all records |
| PivotTotals.BucketSumsRows | src/utils/pivotEngine.ts:14-29 | summing the buckets across the column keys gives the row key's group |
| PivotTotals.BucketsPartition | src/utils/pivotEngine.ts:14-29 | the buckets partition the records: any per-record weight summed over all buckets equals its sum over the data |
| PivotTotals.BucketSizesSum | src/utils/pivotEngine.ts:14-29 | the bucket sizes add up to the number of records |
| PivotTotals.FieldSumsTotal | src/utils/pivotEngine.ts:65 | the bucket sums of a field add up to the field's grand total |
| PivotTotals.CountCell | src/utils/pivotEngine.ts:108-110 | a count cell holds the size of its bucket |
| PivotTotals.SumCell | src/utils/pivotEngine.ts:105-133 | a non-empty sum cell is the number `Math.round(s*100)/100` of the bucket's field sum s |
| PivotTotals.AverageCell | src/utils/pivotEngine.ts:111-133 | a non-empty average cell is the bucket's field sum divided by the bucket size, rounded to hundredths |
| PivotTotals.MaxCell | src/utils/pivotEngine.ts:114-133 | a non-empty max cell is the largest field value of the bucket, rounded to hundredths |
| PivotTotals.MinCell | src/utils/pivotEngine.ts:117-133 | a non-empty min cell is the smallest field value of the bucket, rounded to hundredths |
| PivotTotals.PercentageCell | src/utils/pivotEngine.ts:120-130 | a non-empty percentage cell is the text `toFixed(2)` of the sum of the bucket records' shares of the grand total, followed by `% ` |
| PivotTotals.SumAggregate | src/utils/pivotEngine.ts:105-107 | a sum is the field's sum over the bucket |
| PivotTotals.PercentageAggregate | src/utils/pivotEngine.ts:120-126 | a percentage is the sum of the records' shares of the grand total |
| PivotTotals.PercentagesSum | src/utils/pivotEngine.ts:61-69 | the unrounded percentages of a field over all buckets add up to 100, or to 0 when the field sums to 0 |
| PivotTotals.AverageBetween | src/utils/pivotEngine.ts:111-119 | an average lies between the bucket's minimum and maximum |
| PivotTotals.MeanBetween | src/utils/pivotEngine.ts:112 | the mean of a non-empty list lies between its minimum and maximum |
| ConfigActions.InitialConfig | src/features/pivot/usePivotLogic.ts:9-13 | the configuration starts with no rows, columns or values |
| ConfigActions.Without | src/features/pivot/usePivotLogic.ts:26 | the filter drops exactly the given field |
| ConfigActions.WithoutAppend | src/features/pivot/usePivotLogic.ts:26 | the filter works element by element and keeps the order |
| ConfigActions.WithoutMultiset | src/features/pivot/usePivotLogic.ts:26 | every occurrence of the field is removed, and every other element keeps its count |
| ConfigActions.WithoutAbsent | src/features/pivot/usePivotLogic.ts:26 | filtering out an absent field changes nothing |
| ConfigActions.WithoutDistinct | src/features/pivot/usePivotLogic.ts:26 | filtering keeps a list duplicate-free |
| ConfigActions.Toggle | src/features/pivot/usePivotLogic.ts:26 | a present field is removed and nothing else; an absent field is appended |
| ConfigActions.ToggleTwice | src/features/pivot/usePivotLogic.ts:26 | adding and then removing an absent field gives the list back |
| ConfigActions.ToggleDistinct | src/features/pivot/usePivotLogic.ts:26 | toggling keeps a list duplicate-free |
| ConfigActions.ToggleRow | src/features/pivot/usePivotLogic.ts:23-28 | only the rows change, by the toggle semantics |
| ConfigActions.ToggleColumn | src/features/pivot/usePivotLogic.ts:30-35 | only the columns change, by the toggle semantics |
| ConfigActions.ToggleRowDisjoint | src/features/pivot/usePivotLogic.ts:23-28 | from a disjoint configuration, a row toggle stays disjoint exactly when it removes the field or the field is not a column |
| ConfigActions.ToggleColumnDisjoint | src/features/pivot/usePivotLogic.ts:30-35 | the same for a column toggle, with rows and columns swapped |
| ConfigActions.AddValue | src/features/pivot/usePivotLogic.ts:37-42 | only the values change: a count of the field is appended and the old entries stay in place |
| ConfigActions.RemoveIndexSlices | src/features/pivot/usePivotLogic.ts:47 | the index filter removes the one entry at an in-range index, and nothing otherwise |
| ConfigActions.RemoveValue | src/features/pivot/usePivotLogic.ts:44-49 | only the values change, losing exactly the entry at an in-range index; an out-of-range index changes nothing |
| ConfigActions.RemoveAddedValue | src/features/pivot/usePivotLogic.ts:37-49 | removing the value just added restores the configuration |
| ConfigActions.UpdateAggregator | src/features/pivot/usePivotLogic.ts:51-57 | only the entry at the index changes, to the same field with the new aggregator |
| ConfigActions.UpdateAggregatorTwice | src/features/pivot/usePivotLogic.ts:51-57 | the last aggregator chosen wins |
| ConfigActions.UpdateAggregatorSame | src/features/pivot/usePivotLogic.ts:51-57 | choosing the current aggregator again changes nothing |
| ConfigActions.SpliceStart | src/features/pivot/usePivotLogic.ts:94 | the splice start of an in-range start is the start; a negative one counts from the end; one past the end is the length, one before the start is 0 |
| ConfigActions.ArrayMove | src/features/pivot/usePivotLogic.ts:94 | `arrayMove` returns a permutation of the same length (an out-of-range `from` is listed under Left out) |
| ConfigActions.ArrayMoveUnfold | src/features/pivot/usePivotLogic.ts:94 | for in-range indices, the moved list is the rest with the element inserted at the target |
| ConfigActions.ArrayMoveInRange | src/features/pivot/usePivotLogic.ts:94 | the element moved from `from` lands at `to`, and the other elements keep their relative order |
| ConfigActions.ArrayMoveBack | src/features/pivot/usePivotLogic.ts:94 | moving back from `to` to `from` undoes a move |
| ConfigActions.MoveTagged | src/features/pivot/usePivotLogic.ts:91-94 | `findIndex` of both tags, then `arrayMove`: the entry found for the dragged tag moves to the target's position, or nothing changes when a tag is missing or both are the same |
| ConfigActions.MoveParsed | src/features/pivot/usePivotLogic.ts:109-110 | `arrayMove` at two parsed positions: a move when both are in the list and differ, nothing when a position is missing or both agree, a permutation always |
| ConfigActions.FindTagged | src/features/pivot/usePivotLogic.ts:91-92 | `findIndex` gives the first tagged match, or -1 exactly when nothing matches |
| ConfigActions.LeadingDigits | src/features/pivot/usePivotLogic.ts:107-108 | the longest prefix made only of decimal digits |
| ConfigActions.LeadingDigitsAll | src/features/pivot/usePivotLogic.ts:107-108 | an all-digit text is its own digit prefix |
| ConfigActions.ParseIntDecimal | src/features/pivot/usePivotLogic.ts:107-108 | `parseInt` reads back the decimal text of a natural number |
| ConfigActions.ValueIndexOfTag | src/features/pivot/usePivotLogic.ts:107-108 | the index is read back from a value tag `value-field::idx` whenever the field can be told apart from the separator |
| ConfigActions.ValueIndexOfPair | src/features/pivot/usePivotLogic.ts:107-108 | for an id made of three colon-free pieces, the index read is the `parseInt` of the middle piece |
| ConfigActions.ValueIndexAmbiguousTag | src/features/pivot/usePivotLogic.ts:107-110 | the id `value-a::9::0` of the first of the values `a::9`, `b` reads as position 9, past the end of that two-entry list |
| ConfigActions.SourceDrop | src/features/pivot/usePivotLogic.ts:75-88 | a field in neither list dropped on the rows area or a row tag is appended to the rows; otherwise, dropped on the columns area or a column tag, to the columns; a field already placed changes nothing there; a drop on the values area or a value tag adds a count of it; any other target changes nothing |
| ConfigActions.ReorderRows | src/features/pivot/usePivotLogic.ts:90-96 | when both tags name different rows, the dragged row moves to the target's position and the other rows keep their order; otherwise nothing changes; columns and values never change |
| ConfigActions.ReorderColumns | src/features/pivot/usePivotLogic.ts:98-104 | the same for columns: the dragged column takes the target's position, the others keep their order, or nothing changes |
| ConfigActions.ReorderValues | src/features/pivot/usePivotLogic.ts:106-112 | when both ids parse to different positions in the list, the value at the first moves to the second and the others keep their order; when one does not parse or both agree, nothing changes; the values stay a permutation |
| ConfigActions.DragEnd | src/features/pivot/usePivotLogic.ts:65-113 | a drop with no target changes nothing |
| ConfigActions.SourceDropDisjoint | src/features/pivot/usePivotLogic.ts:75-88 | a source drop keeps rows and columns disjoint and duplicate-free |
| ConfigActions.PermutationDistinct | src/features/pivot/usePivotLogic.ts:94 | a permutation of a duplicate-free list is duplicate-free and has the same elements |
| ConfigActions.DragEndDisjoint | src/features/pivot/usePivotLogic.ts:65-113 | no drop makes a field both a row and a column, or lists it twice |
| ConfigActions.DragEndReorders | src/features/pivot/usePivotLogic.ts:90-112 | dragging a tag only permutes its own list, and every other kind of drag changes nothing |
| PivotLogic.PivotSession.constructor | src/features/pivot/usePivotLogic.ts:9-13 | a session starts from the empty configuration, which is disjoint |
| PivotLogic.PivotSession.ToggleRow | src/features/pivot/usePivotLogic.ts:23-28 | the configuration becomes the row toggle of the old one; removing a row keeps it disjoint |
| PivotLogic.PivotSession.ToggleColumn | src/features/pivot/usePivotLogic.ts:30-35 | the configuration becomes the column toggle of the old one; removing a column keeps it disjoint |
| PivotLogic.PivotSession.AddValue | src/features/pivot/usePivotLogic.ts:37-42 | the configuration gains a count value |
| PivotLogic.PivotSession.RemoveValue | src/features/pivot/usePivotLogic.ts:44-49 | the configuration loses the value at the index |
| PivotLogic.PivotSession.UpdateAggregator | src/features/pivot/usePivotLogic.ts:51-57 | copying the list and assigning one entry gives the aggregator update |
| PivotLogic.PivotSession.HandleDragEnd | src/features/pivot/usePivotLogic.ts:65-113 | the configuration becomes the drop's result, and disjointness is kept |
| PivotLogic.PivotSession.Columns | src/features/pivot/usePivotLogic.ts:19 | the derived column list is empty without records, and otherwise the first record's field names, in order |
| PivotLogic.PivotSession.Result | src/features/pivot/usePivotLogic.ts:20 | the derived result is the pivot of the data under the current configuration |

Definitions without their own row are the reference functions whose meaning the rows above state:

- `PivotSpec.GroupKey` (src/utils/pivotEngine.ts:15-21) is characterised by `PivotProperties.GroupKeyInjective`, `PivotProperties.RowOrderWithoutRows` and `PivotProperties.GrandTotalOnly`.
- `PivotSpec.Aggregate` (104-127) is characterised by `PivotTotals.SumAggregate`, `PivotTotals.CountCell`, `PivotTotals.AverageValue`, `PivotTotals.AverageBetween`, `PivotTotals.PercentageAggregate` and `PivotTotals.PercentagesSum`, and `PivotSpec.MaxOf`/`MinOf` give the max and min cases.
- `PivotSpec.ColumnLabel`, `PivotSpec.SimpleLabel` and `PivotSpec.UpperName` (43-45, 52-54) are the label texts themselves, placed by `PivotProperties.HeadersLayout` and `PivotProperties.ColumnHeadersAt`.
- `PivotSpec.Pivot` (4-144) is tied to the engine by `PivotEngine.PerformPivot` and described by `PivotProperties.HeadersLayout`, `PivotProperties.GridLayout` and `PivotProperties.RowWidth`. `PivotProperties.PivotParts` only unfolds it for those lemmas.
- `Strings.Split` and `Strings.Join` (79 and 16) are related by `Strings.SplitJoin` and `Strings.SplitJoinColonCounterexample`.
- `ConfigActions.ParseInt` and `ConfigActions.ValueIndex` (src/features/pivot/usePivotLogic.ts:107-108) are described by `ConfigActions.ParseIntDecimal`, `ConfigActions.ValueIndexOfTag`, `ConfigActions.ValueIndexOfPair` and `ConfigActions.ValueIndexAmbiguousTag`.
- `ConfigActions.RemoveIndex` (47) is described by `ConfigActions.RemoveIndexSlices`.
- `PivotTotals.PercentageValue` and `PivotTotals.AverageValue` only unfold the percentage and average cases of `Aggregate`, and `PivotTotals.MaxValue` and `PivotTotals.MinValue` the max and min cases of `CellFor`; the cell lemmas and `PivotTotals.PercentagesSum` and `PivotTotals.AverageBetween` state what those values mean.

## Left out

- Floating point: numbers are exact reals. There is no NaN, infinity or rounding error. Sums, averages and percentages are exact before `Math.round` or `toFixed`.
- `String(n)` of a number and `Number(s)` of a string are parameters of the model (`JsRuntime`). They are not defined here.
- `Object.entries` on the node map lists integer-like keys (such as `"2024"`) first, in numeric order. The model uses insertion order for every key.
- Row or column keys that are names of `Object.prototype` members, such as `constructor` or `toString`, are not modelled. A row key like `constructor` finds the inherited function in the node map, so its records are attached to that function, and `Object.entries` never lists them. A column key like `toString` finds an inherited function in the row's map, so `.push` throws a TypeError (src/utils/pivotEngine.ts:25-28). The model treats every key as an own key.
- `toFixed` of values at or above 1e21, which switches to exponent notation, is not modelled.
- The default sort compares UTF-16 code units. The model compares the characters of a Dafny string, that is code points. The two orders differ only between a character above U+FFFF and one in U+E000 to U+FFFF.
- `parseInt`: leading whitespace, `0x` prefixes and precision loss for very long digit strings are not modelled.
- `Math.max`/`Math.min` argument-count limits on very large buckets are not modelled.
- ConfigActions.ArrayMove: when `from` names no element, `arrayMove` of @dnd-kit/sortable inserts `undefined` at `to`, and the list grows by one. The model cannot hold `undefined` in a value list, so it returns the list unchanged.
- ConfigActions.ReorderValues reaches that case through ConfigActions.ValueIndex when a value field contains `::`. ConfigActions.ValueIndexAmbiguousTag shows such an id. The source then stores a list with an `undefined` entry, and the next `performPivot` throws reading its `aggregator`. For a position at or past the end the model keeps the values unchanged instead. For out-of-range positions it promises only a permutation.
- ConfigActions.UpdateAggregator requires an index inside the list. JavaScript would create a new entry for an index past the end, but the view only passes indices of existing values.
- PivotLogic.PivotSession.UpdateAggregator has the same in-range requirement.
- PivotProperties.RowWidth assumes every record's key parts can be told apart. No part may contain `::`, and no part but the last may end in `:`. This is stronger than "no part contains `::`": Strings.SplitJoinColonCounterexample shows why, and PivotProperties.RowWidthCounterexample shows a row that is wider than the header line.
- PivotTotals.PercentagesSum and PivotTotals.AverageBetween are about the unrounded values, before `toFixed(2)` and `Math.round`.
- `handleDragStart` and its `activeId`/`activeItem` state only feed the drag overlay. They are not modelled.
- React's state batching and `useMemo` caching are not modelled. Each action is one replacement of the configuration.
- The rendering, file upload and sheet selection parts of the application are not part of this model.
