/** The configuration transitions of src/features/pivot/usePivotLogic.ts as
    pure functions from the previous `PivotConfig` to the next one: the
    toggles, the value-list edits, `arrayMove` of @dnd-kit/sortable, and the
    dispatch of `handleDragEnd`. */
module ConfigActions {
  import opened PivotTypes
  import opened Seqs
  import opened Strings
  import opened JsValues

  /** The state `useState` starts from. */
  function InitialConfig(): (c: PivotConfig)
    ensures c.rows == [] && c.columns == [] && c.values == []
  {
    PivotConfig([], [], [])
  }

  /** No field is listed twice, and no field is both a row and a column. */
  ghost predicate FieldsDisjoint(c: PivotConfig)
  {
    Distinct(c.rows) && Distinct(c.columns) && forall x :: x in c.rows ==> x !in c.columns
  }

  // ------------------------------------------------------------- toggles

  /** `s.filter(f => f !== field)` */
  function Without(s: seq<string>, field: string): (r: seq<string>)
    ensures field !in r
    ensures forall x :: x in r <==> x in s && x != field
    ensures |r| <= |s|
  {
    if s == [] then []
    else Without(s[..|s| - 1], field) + if s[|s| - 1] == field then [] else [s[|s| - 1]]
  }

  lemma WithoutSnoc(s: seq<string>, z: string, field: string)
    ensures Without(s + [z], field) == Without(s, field) + if z == field then [] else [z]
  {
    assert (s + [z])[..|s|] == s;
  }

  /** The filter works element by element: it keeps the relative order of
      whatever it keeps. */
  lemma {:induction false} WithoutAppend(a: seq<string>, b: seq<string>, field: string)
    ensures Without(a + b, field) == Without(a, field) + Without(b, field)
  {
    if b == [] {
      assert a + b == a;
    } else {
      var b' := b[..|b| - 1];
      var z := b[|b| - 1];
      var e := if z == field then [] else [z];
      assert b == b' + [z];
      assert a + b == (a + b') + [z];
      WithoutSnoc(a + b', z, field);
      WithoutSnoc(b', z, field);
      WithoutAppend(a, b', field);
      AppendAssoc(Without(a, field), Without(b', field), e);
    }
  }

  /** Every occurrence of `field` goes, every other element stays as often
      as it was there. */
  lemma {:induction false} WithoutMultiset(s: seq<string>, field: string)
    ensures multiset(Without(s, field)) == multiset(s)[field := 0]
  {
    if s != [] {
      var t := s[..|s| - 1];
      WithoutMultiset(t, field);
      assert s == t + [s[|s| - 1]];
    }
  }

  /** Filtering out an absent field changes nothing. */
  lemma {:induction false} WithoutAbsent(s: seq<string>, field: string)
    requires field !in s
    ensures Without(s, field) == s
  {
    if s != [] {
      var t := s[..|s| - 1];
      assert s == t + [s[|s| - 1]];
      WithoutAbsent(t, field);
    }
  }

  lemma {:induction false} WithoutDistinct(s: seq<string>, field: string)
    requires Distinct(s)
    ensures Distinct(Without(s, field))
  {
    if s != [] {
      var t := s[..|s| - 1];
      var z := s[|s| - 1];
      assert s == t + [z];
      DistinctSnoc(t, z);
      WithoutDistinct(t, field);
      if z != field {
        DistinctSnoc(Without(t, field), z);
      }
    }
  }

  /** `s.includes(field) ? s.filter(f => f !== field) : [...s, field]` */
  function Toggle(s: seq<string>, field: string): (r: seq<string>)
    ensures field in s ==> field !in r && forall x :: x in r <==> x in s && x != field
    ensures field !in s ==> r == s + [field]
  {
    if field in s then Without(s, field) else s + [field]
  }

  /** Toggling an absent field twice gives the list back. */
  lemma ToggleTwice(s: seq<string>, field: string)
    requires field !in s
    ensures Toggle(Toggle(s, field), field) == s
  {
    assert field in s + [field];
    WithoutAppend(s, [field], field);
    WithoutAbsent(s, field);
    assert Without([field], field) == Without([], field) + [];
  }

  lemma ToggleDistinct(s: seq<string>, field: string)
    requires Distinct(s)
    ensures Distinct(Toggle(s, field))
  {
    if field in s { WithoutDistinct(s, field); } else { DistinctSnoc(s, field); }
  }

  /** `toggleRow`: only `rows` changes. */
  function ToggleRow(c: PivotConfig, field: string): (r: PivotConfig)
    ensures r.columns == c.columns && r.values == c.values
    ensures field in c.rows ==> field !in r.rows && forall x :: x in r.rows <==> x in c.rows && x != field
    ensures field !in c.rows ==> r.rows == c.rows + [field]
  {
    c.(rows := Toggle(c.rows, field))
  }

  /** `toggleColumn`: only `columns` changes. */
  function ToggleColumn(c: PivotConfig, field: string): (r: PivotConfig)
    ensures r.rows == c.rows && r.values == c.values
    ensures field in c.columns ==> field !in r.columns && forall x :: x in r.columns <==> x in c.columns && x != field
    ensures field !in c.columns ==> r.columns == c.columns + [field]
  {
    c.(columns := Toggle(c.columns, field))
  }

  /** A row toggle keeps rows and columns apart exactly when it removes the
      field or the field is not a column; the view only calls it to remove
      a listed row. */
  lemma ToggleRowDisjoint(c: PivotConfig, field: string)
    requires FieldsDisjoint(c)
    ensures FieldsDisjoint(ToggleRow(c, field)) <==> field in c.rows || field !in c.columns
  {
    ToggleDistinct(c.rows, field);
    if field !in c.rows && field in c.columns {
      assert field in ToggleRow(c, field).rows;
    }
  }

  lemma ToggleColumnDisjoint(c: PivotConfig, field: string)
    requires FieldsDisjoint(c)
    ensures FieldsDisjoint(ToggleColumn(c, field)) <==> field in c.columns || field !in c.rows
  {
    ToggleDistinct(c.columns, field);
    if field !in c.columns && field in c.rows {
      assert field in ToggleColumn(c, field).columns;
    }
  }

  // --------------------------------------------------------- value list

  /** `addValue`: a count of `field` at the end. */
  function AddValue(c: PivotConfig, field: string): (r: PivotConfig)
    ensures r.rows == c.rows && r.columns == c.columns
    ensures |r.values| == |c.values| + 1 && r.values[..|c.values|] == c.values
    ensures r.values[|c.values|] == ValueSpec(field, Count)
  {
    c.(values := c.values + [ValueSpec(field, Count)])
  }

  /** `values.filter((_, i) => i !== index)` */
  function RemoveIndex(vs: seq<ValueSpec>, index: int): (r: seq<ValueSpec>)
  {
    if vs == [] then []
    else RemoveIndex(vs[..|vs| - 1], index) + if |vs| - 1 == index then [] else [vs[|vs| - 1]]
  }

  /** The index filter removes the one entry at `index`, or nothing when
      `index` is out of range. */
  lemma {:induction false} RemoveIndexSlices(vs: seq<ValueSpec>, index: int)
    ensures RemoveIndex(vs, index) == if 0 <= index < |vs| then vs[..index] + vs[index + 1..] else vs
  {
    if vs != [] {
      var t := vs[..|vs| - 1];
      RemoveIndexSlices(t, index);
      if 0 <= index < |t| {
        assert vs[..index] == t[..index];
        assert vs[index + 1..] == t[index + 1..] + [vs[|vs| - 1]];
      } else if index == |t| {
        assert vs[..index] == t;
      } else {
        assert vs == t + [vs[|vs| - 1]];
      }
    }
  }

  /** `removeValue`: only `values` changes, losing exactly the entry at
      `index`. */
  function RemoveValue(c: PivotConfig, index: int): (r: PivotConfig)
    ensures r.rows == c.rows && r.columns == c.columns
    ensures 0 <= index < |c.values| ==> r.values == c.values[..index] + c.values[index + 1..]
    ensures !(0 <= index < |c.values|) ==> r.values == c.values
  {
    RemoveIndexSlices(c.values, index);
    c.(values := RemoveIndex(c.values, index))
  }

  /** Removing the entry just added undoes `addValue`. */
  lemma RemoveAddedValue(c: PivotConfig, field: string)
    ensures RemoveValue(AddValue(c, field), |c.values|) == c
  {
    var a := AddValue(c, field);
    assert a.values[..|c.values|] == c.values;
    assert a.values[|c.values| + 1..] == [];
  }

  /** `updateAggregator` for an index of the list (the only indices the view
      passes): a copy of the list with that entry's aggregator replaced. */
  function UpdateAggregator(c: PivotConfig, index: int, agg: Aggregator): (r: PivotConfig)
    requires 0 <= index < |c.values|
    ensures r.rows == c.rows && r.columns == c.columns && |r.values| == |c.values|
    ensures r.values[index] == ValueSpec(c.values[index].field, agg)
    ensures forall i :: 0 <= i < |c.values| && i != index ==> r.values[i] == c.values[i]
  {
    c.(values := c.values[index := c.values[index].(aggregator := agg)])
  }

  /** The last aggregator chosen wins. */
  lemma UpdateAggregatorTwice(c: PivotConfig, index: int, a: Aggregator, b: Aggregator)
    requires 0 <= index < |c.values|
    ensures UpdateAggregator(UpdateAggregator(c, index, a), index, b) == UpdateAggregator(c, index, b)
  {
  }

  /** Choosing the current aggregator again changes nothing. */
  lemma UpdateAggregatorSame(c: PivotConfig, index: int)
    requires 0 <= index < |c.values|
    ensures UpdateAggregator(c, index, c.values[index].aggregator) == c
  {
  }

  // ------------------------------------------------------------ arrayMove

  /** Where `Array.prototype.splice` starts for a `start` argument on a list
      of length `len`: negative counts from the end, clamped to [0, len]. */
  function SpliceStart(len: nat, start: int): (k: nat)
    ensures k <= len
    ensures 0 <= start <= len ==> k == start
    ensures -(len as int) <= start < 0 ==> k == len + start
    ensures start > len ==> k == len
    ensures start < -(len as int) ==> k == 0
  {
    if start < 0 then (if len + start < 0 then 0 else len + start)
    else if start > len then len
    else start
  }

  /** `arrayMove(s, from, to)` of @dnd-kit/sortable: remove the element at
      `from` with `splice`, then insert it with `splice` at `to`, where a
      negative `to` was first offset by the length of the whole list. When
      `from` names no element, the library inserts `undefined` at `to` and
      the list grows by one; a list of this model cannot hold `undefined`,
      so here it is returned unchanged. */
  function ArrayMove<T>(s: seq<T>, from: int, to: int): (r: seq<T>)
    ensures |r| == |s|
    ensures multiset(r) == multiset(s)
  {
    var f := SpliceStart(|s|, from);
    if f == |s| then s
    else
      var rest := s[..f] + s[f + 1..];
      var t := SpliceStart(|rest|, if to < 0 then |s| + to else to);
      MoveMultiset(s, f, t);
      rest[..t] + [s[f]] + rest[t..]
  }

  lemma MoveMultiset<T>(s: seq<T>, f: nat, t: nat)
    requires f < |s| && t < |s|
    ensures var rest := s[..f] + s[f + 1..];
            multiset(rest[..t] + [s[f]] + rest[t..]) == multiset(s)
  {
    var rest := s[..f] + s[f + 1..];
    calc {
      multiset(s);
      { assert s == s[..f] + ([s[f]] + s[f + 1..]); }
      multiset(s[..f]) + multiset([s[f]] + s[f + 1..]);
      multiset(rest) + multiset{s[f]};
      { assert rest == rest[..t] + rest[t..]; }
      multiset(rest[..t]) + multiset(rest[t..]) + multiset{s[f]};
      multiset(rest[..t] + [s[f]] + rest[t..]);
    }
  }

  lemma ArrayMoveUnfold<T>(s: seq<T>, from: int, to: int)
    requires 0 <= from < |s| && 0 <= to < |s|
    ensures var rest := s[..from] + s[from + 1..];
            ArrayMove(s, from, to) == rest[..to] + [s[from]] + rest[to..]
  {
  }

  /** Both indices in range: the element at `from` ends up at `to`, and the
      others keep their relative order. */
  lemma ArrayMoveInRange<T>(s: seq<T>, from: int, to: int)
    requires 0 <= from < |s| && 0 <= to < |s|
    ensures ArrayMove(s, from, to)[to] == s[from]
    ensures ArrayMove(s, from, to)[..to] + ArrayMove(s, from, to)[to + 1..] == s[..from] + s[from + 1..]
  {
    var rest := s[..from] + s[from + 1..];
    var r := ArrayMove(s, from, to);
    ArrayMoveUnfold(s, from, to);
    assert r[..to] == rest[..to];
    assert r[to + 1..] == rest[to..];
    assert rest[..to] + rest[to..] == rest;
  }

  /** Moving back undoes a move. */
  lemma ArrayMoveBack<T>(s: seq<T>, from: int, to: int)
    requires 0 <= from < |s| && 0 <= to < |s|
    ensures ArrayMove(ArrayMove(s, from, to), to, from) == s
  {
    var r := ArrayMove(s, from, to);
    ArrayMoveInRange(s, from, to);
    ArrayMoveUnfold(r, to, from);
    Reinsert(s, from, r[..to] + r[to + 1..], r[to]);
  }

  /** Putting the removed element back where it was restores the list. */
  lemma Reinsert<T>(s: seq<T>, from: nat, rest: seq<T>, x: T)
    requires from < |s| && rest == s[..from] + s[from + 1..] && x == s[from]
    ensures rest[..from] + [x] + rest[from..] == s
  {
    assert rest[..from] == s[..from];
    assert rest[from..] == s[from + 1..];
  }

  // ------------------------------------------------------ drag and drop

  /** `active.data.current` of a drag: a field of the source list, a
      sortable tag of one of the three areas, or anything else. */
  datatype ActiveKind = SourceField(field: string) | RowTag | ColTag | ValueTag | OtherKind

  /** The parts of a `DragEndEvent` that `handleDragEnd` reads: the dragged
      item's id and data, and the id of the drop target if there is one. */
  datatype DragEndEvent = DragEndEvent(activeId: string, kind: ActiveKind, over: Option<string>)

  predicate StartsWith(s: string, prefix: string)
  {
    |prefix| <= |s| && s[..|prefix|] == prefix
  }

  /** `s.findIndex(r => prefix + r === id)`: the first match, or -1. */
  function FindTagged(s: seq<string>, prefix: string, id: string): (i: int)
    ensures -1 <= i < |s|
    ensures i >= 0 ==> prefix + s[i] == id && forall j :: 0 <= j < i ==> prefix + s[j] != id
    ensures i == -1 <==> forall j :: 0 <= j < |s| ==> prefix + s[j] != id
  {
    if s == [] then -1
    else if prefix + s[0] == id then 0
    else
      var i := FindTagged(s[1..], prefix, id);
      assert forall j :: 0 < j < |s| ==> s[j] == s[1..][j - 1];
      if i == -1 then -1 else i + 1
  }

  /** The longest prefix of decimal digits. */
  function LeadingDigits(s: string): (d: string)
    ensures |d| <= |s| && d == s[..|d|]
    ensures forall i :: 0 <= i < |d| ==> IsDigit(d[i])
    ensures |d| < |s| ==> !IsDigit(s[|d|])
  {
    if s == [] || !IsDigit(s[0]) then []
    else [s[0]] + LeadingDigits(s[1..])
  }

  /** `parseInt(s)` in base ten: an optional sign, then the leading digits;
      NaN (None) when there is no digit. */
  function ParseInt(s: string): (n: Option<int>)
  {
    var neg := |s| > 0 && s[0] == '-';
    var body := if |s| > 0 && (s[0] == '-' || s[0] == '+') then s[1..] else s;
    var d := LeadingDigits(body);
    if d == [] then None
    else Some(if neg then -(DecimalValue(d) as int) else DecimalValue(d))
  }

  lemma LeadingDigitsAll(s: string)
    requires forall i :: 0 <= i < |s| ==> IsDigit(s[i])
    ensures LeadingDigits(s) == s
  {
    if s != [] {
      assert forall i :: 0 <= i < |s[1..]| ==> IsDigit(s[1..][i]) by {
        forall i | 0 <= i < |s[1..]| ensures IsDigit(s[1..][i]) { assert s[1..][i] == s[i + 1]; }
      }
      LeadingDigitsAll(s[1..]);
    }
  }

  /** `parseInt` reads back the decimal text of a natural number. */
  lemma ParseIntDecimal(n: nat)
    ensures ParseInt(NatToDecimal(n)) == Some(n)
  {
    var d := NatToDecimal(n);
    assert IsDigit(d[0]);
    LeadingDigitsAll(d);
  }

  /** `parseInt(id.split('::')[1])`; `[1]` of a one-piece split is undefined,
      which parses to NaN. */
  function ValueIndex(id: string): (n: Option<int>)
  {
    var parts := Split(id);
    if |parts| < 2 then None else ParseInt(parts[1])
  }

  /** The view tags the value at position `idx` with the id
      `value-${field}::${idx}`; the index is read back from that id whenever
      the field name can be told apart from the separator. */
  lemma ValueIndexOfTag(field: string, idx: nat)
    requires !HasSep("value-" + field) && ("value-" + field)[|"value-" + field| - 1] != ':'
    ensures ValueIndex("value-" + field + "::" + NatToDecimal(idx)) == Some(idx)
  {
    var p := "value-" + field;
    var d := NatToDecimal(idx);
    assert !HasSep(d) by {
      forall i | 0 <= i < |d| ensures !SepAt(d, i) { assert IsDigit(d[i]); }
    }
    var parts := [p, d];
    assert Join(parts) == p + "::" + d by {
      assert parts[1..] == [d];
    }
    SplitJoin(parts);
    ParseIntDecimal(idx);
  }

  /** The drop targets of the three areas: the area itself or a tag in it. */
  predicate OnRows(overId: string) { overId == "rows-container" || StartsWith(overId, "row-") }
  predicate OnColumns(overId: string) { overId == "cols-container" || StartsWith(overId, "col-") }
  predicate OnValues(overId: string) { overId == "values-container" || StartsWith(overId, "value-") }

  /** A source field dropped on an area (lines 75-88): a field in neither
      list joins the rows or the columns it is dropped on, any field dropped
      on the values becomes a count, and nothing else changes anything. */
  function SourceDrop(c: PivotConfig, field: string, overId: string): (r: PivotConfig)
    ensures r == c || r == c.(rows := c.rows + [field]) || r == c.(columns := c.columns + [field]) ||
            r == AddValue(c, field)
    ensures r.rows != c.rows ==> field !in c.rows && field !in c.columns
    ensures r.columns != c.columns ==> field !in c.rows && field !in c.columns
    ensures OnRows(overId) && field !in c.rows && field !in c.columns ==> r == c.(rows := c.rows + [field])
    ensures !OnRows(overId) && OnColumns(overId) && field !in c.rows && field !in c.columns ==>
              r == c.(columns := c.columns + [field])
    ensures !OnRows(overId) && !OnColumns(overId) && OnValues(overId) ==> r == AddValue(c, field)
    ensures (OnRows(overId) || OnColumns(overId)) && (field in c.rows || field in c.columns) ==> r == c
    ensures !OnRows(overId) && !OnColumns(overId) && !OnValues(overId) ==> r == c
  {
    if OnRows(overId) then
      if field !in c.rows && field !in c.columns then c.(rows := c.rows + [field]) else c
    else if OnColumns(overId) then
      if field !in c.columns && field !in c.rows then c.(columns := c.columns + [field]) else c
    else if OnValues(overId) then
      AddValue(c, field)
    else c
  }

  /** `r` is `s` with the entry at `i` taken out and put back at `j`: it
      sits at `j` and the other entries keep their order. */
  ghost predicate Moved<T>(s: seq<T>, r: seq<T>, i: int, j: int)
  {
    |r| == |s| && 0 <= i < |s| && 0 <= j < |s| && r[j] == s[i] &&
    r[..j] + r[j + 1..] == s[..i] + s[i + 1..]
  }

  /** `findIndex` of both tags, then `arrayMove` when both are found and
      differ (lines 91-94, 99-102): the dragged entry takes the target's
      position and the others keep their order; otherwise nothing changes. */
  function MoveTagged(s: seq<string>, prefix: string, activeId: string, overId: string): (r: seq<string>)
    ensures multiset(r) == multiset(s)
    ensures var i := FindTagged(s, prefix, activeId);
            var j := FindTagged(s, prefix, overId);
            if i != -1 && j != -1 && i != j then Moved(s, r, i, j) else r == s
  {
    var oldIndex := FindTagged(s, prefix, activeId);
    var newIndex := FindTagged(s, prefix, overId);
    if oldIndex != -1 && newIndex != -1 && oldIndex != newIndex then
      ArrayMoveInRange(s, oldIndex, newIndex);
      ArrayMove(s, oldIndex, newIndex)
    else s
  }

  /** A row tag dropped on a row tag (lines 90-96): the dragged row takes
      the target's position, the other rows keep their order, and nothing
      else changes; when either tag names no row, or both the same, nothing
      changes at all. */
  function ReorderRows(c: PivotConfig, activeId: string, overId: string): (r: PivotConfig)
    ensures r.columns == c.columns && r.values == c.values
    ensures multiset(r.rows) == multiset(c.rows)
    ensures var i := FindTagged(c.rows, "row-", activeId);
            var j := FindTagged(c.rows, "row-", overId);
            if i != -1 && j != -1 && i != j then Moved(c.rows, r.rows, i, j) else r == c
  {
    c.(rows := MoveTagged(c.rows, "row-", activeId, overId))
  }

  /** A column tag dropped on a column tag (lines 98-104), as for rows. */
  function ReorderColumns(c: PivotConfig, activeId: string, overId: string): (r: PivotConfig)
    ensures r.rows == c.rows && r.values == c.values
    ensures multiset(r.columns) == multiset(c.columns)
    ensures var i := FindTagged(c.columns, "col-", activeId);
            var j := FindTagged(c.columns, "col-", overId);
            if i != -1 && j != -1 && i != j then Moved(c.columns, r.columns, i, j) else r == c
  {
    c.(columns := MoveTagged(c.columns, "col-", activeId, overId))
  }

  /** `arrayMove` at two parsed positions when both parsed and differ
      (lines 109-110). */
  function MoveParsed<T>(s: seq<T>, i: Option<int>, j: Option<int>): (r: seq<T>)
    ensures multiset(r) == multiset(s)
    ensures i.Some? && j.Some? && i.value != j.value && 0 <= i.value < |s| && 0 <= j.value < |s| ==>
              Moved(s, r, i.value, j.value)
    ensures i.None? || j.None? || i.value == j.value ==> r == s
  {
    if i.Some? && j.Some? && i.value != j.value then
      if 0 <= i.value < |s| && 0 <= j.value < |s| then
        ArrayMoveInRange(s, i.value, j.value);
        ArrayMove(s, i.value, j.value)
      else ArrayMove(s, i.value, j.value)
    else s
  }

  /** A value tag dropped on a value tag (lines 106-112), the positions read
      from the ids: with both positions in the list, the value at the first
      moves to the second and the others keep their order; with a position
      that does not parse, or the same position twice, nothing changes. */
  function ReorderValues(c: PivotConfig, activeId: string, overId: string): (r: PivotConfig)
    ensures r.rows == c.rows && r.columns == c.columns
    ensures multiset(r.values) == multiset(c.values)
    ensures var i := ValueIndex(activeId);
            var j := ValueIndex(overId);
            i.Some? && j.Some? && i.value != j.value && 0 <= i.value < |c.values| && 0 <= j.value < |c.values| ==>
              Moved(c.values, r.values, i.value, j.value)
    ensures var i := ValueIndex(activeId);
            var j := ValueIndex(overId);
            i.None? || j.None? || i.value == j.value ==> r == c
  {
    c.(values := MoveParsed(c.values, ValueIndex(activeId), ValueIndex(overId)))
  }

  /** The ids of the values `a::9` and `b` are `value-a::9::0` and
      `value-b::1`; the first one reads back as position 9, past the end of
      the two-entry list. */
  lemma ValueIndexAmbiguousTag()
    ensures ValueIndex("value-a::9::0") == Some(9)
  {
    var a := "value-a";
    assert forall i :: 0 <= i < |a| ==> a[i] != ':';
    ValueIndexOfPair(a, "9", "0");
    assert a + "::" + "9" + "::" + "0" == "value-a::9::0";
    assert ParseInt("9") == Some(9) by {
      assert LeadingDigits("9") == "9";
    }
  }

  /** Three colon-free pieces joined by "::" split back into the three. */
  lemma ValueIndexOfPair(a: string, b: string, d: string)
    requires forall i :: 0 <= i < |a| ==> a[i] != ':'
    requires forall i :: 0 <= i < |b| ==> b[i] != ':'
    requires forall i :: 0 <= i < |d| ==> d[i] != ':'
    ensures ValueIndex(a + "::" + b + "::" + d) == ParseInt(b)
  {
    NoColon(a);
    NoColon(b);
    NoColon(d);
    var parts := [a, b, d];
    assert Join(parts) == a + "::" + b + "::" + d by {
      assert parts[1..] == [b, d];
      assert parts[1..][1..] == [d];
      assert Join([b, d]) == b + Sep + d;
    }
    SplitJoin(parts);
  }

  lemma NoColon(s: string)
    requires forall i :: 0 <= i < |s| ==> s[i] != ':'
    ensures !HasSep(s)
  {
  }


  /** The configuration `handleDragEnd` leaves. */
  function DragEnd(c: PivotConfig, e: DragEndEvent): (r: PivotConfig)
    ensures e.over.None? ==> r == c
  {
    if e.over.None? then c
    else
      var overId := e.over.value;
      match e.kind
      case SourceField(field) => SourceDrop(c, field, overId)
      case RowTag => if StartsWith(overId, "row-") then ReorderRows(c, e.activeId, overId) else c
      case ColTag => if StartsWith(overId, "col-") then ReorderColumns(c, e.activeId, overId) else c
      case ValueTag => if StartsWith(overId, "value-") then ReorderValues(c, e.activeId, overId) else c
      case OtherKind => c
  }

  lemma SourceDropDisjoint(c: PivotConfig, field: string, overId: string)
    requires FieldsDisjoint(c)
    ensures FieldsDisjoint(SourceDrop(c, field, overId))
  {
    var r := SourceDrop(c, field, overId);
    if r.rows != c.rows { DistinctSnoc(c.rows, field); }
    if r.columns != c.columns { DistinctSnoc(c.columns, field); }
  }

  /** A permutation of a duplicate-free list is duplicate-free and has the
      same elements. */
  lemma PermutationDistinct(s: seq<string>, r: seq<string>)
    requires Distinct(s) && multiset(r) == multiset(s)
    ensures Distinct(r) && forall x :: x in r <==> x in s
  {
    DistinctCounts(s);
    DistinctCounts(r);
    forall x ensures x in r <==> x in s {
      assert x in r <==> x in multiset(r);
      assert x in s <==> x in multiset(s);
    }
  }

  /** No drag ever makes a field both a row and a column or lists it twice. */
  lemma DragEndDisjoint(c: PivotConfig, e: DragEndEvent)
    requires FieldsDisjoint(c)
    ensures FieldsDisjoint(DragEnd(c, e))
  {
    var r := DragEnd(c, e);
    if e.over.Some? {
      match e.kind
      case SourceField(field) => SourceDropDisjoint(c, field, e.over.value);
      case RowTag => PermutationDistinct(c.rows, r.rows);
      case ColTag => PermutationDistinct(c.columns, r.columns);
      case ValueTag =>
      case OtherKind =>
    }
  }

  /** A drag of a sortable tag only permutes its own list. */
  lemma DragEndReorders(c: PivotConfig, e: DragEndEvent)
    requires !e.kind.SourceField?
    ensures multiset(DragEnd(c, e).rows) == multiset(c.rows)
    ensures multiset(DragEnd(c, e).columns) == multiset(c.columns)
    ensures multiset(DragEnd(c, e).values) == multiset(c.values)
    ensures e.kind.RowTag? ==> DragEnd(c, e).columns == c.columns && DragEnd(c, e).values == c.values
    ensures e.kind.ColTag? ==> DragEnd(c, e).rows == c.rows && DragEnd(c, e).values == c.values
    ensures e.kind.ValueTag? ==> DragEnd(c, e).rows == c.rows && DragEnd(c, e).columns == c.columns
    ensures e.kind.OtherKind? ==> DragEnd(c, e) == c
  {
  }
}
