/** The `usePivotLogic` hook (src/features/pivot/usePivotLogic.ts) as an
    object: the record set it was given, the `config` state that every
    action replaces, and the two derived values `columns` and
    `pivotResult`. */
module PivotLogic {
  import opened PivotTypes
  import opened JsValues
  import opened PivotSpec
  import opened PivotEngine
  import ConfigActions

  class PivotSession {
    const data: seq<DataRow>
    var config: PivotConfig

    /** A session starts with empty rows, columns and values. */
    constructor(data: seq<DataRow>)
      ensures this.data == data
      ensures config == ConfigActions.InitialConfig()
      ensures ConfigActions.FieldsDisjoint(config)
    {
      this.data := data;
      config := ConfigActions.InitialConfig();
    }

    method ToggleRow(field: string)
      modifies this
      ensures config == ConfigActions.ToggleRow(old(config), field)
      ensures ConfigActions.FieldsDisjoint(old(config)) && field in old(config).rows ==>
                ConfigActions.FieldsDisjoint(config)
    {
      if ConfigActions.FieldsDisjoint(config) { ConfigActions.ToggleRowDisjoint(config, field); }
      config := ConfigActions.ToggleRow(config, field);
    }

    method ToggleColumn(field: string)
      modifies this
      ensures config == ConfigActions.ToggleColumn(old(config), field)
      ensures ConfigActions.FieldsDisjoint(old(config)) && field in old(config).columns ==>
                ConfigActions.FieldsDisjoint(config)
    {
      if ConfigActions.FieldsDisjoint(config) { ConfigActions.ToggleColumnDisjoint(config, field); }
      config := ConfigActions.ToggleColumn(config, field);
    }

    method AddValue(field: string)
      modifies this
      ensures config == ConfigActions.AddValue(old(config), field)
    {
      config := ConfigActions.AddValue(config, field);
    }

    method RemoveValue(index: int)
      modifies this
      ensures config == ConfigActions.RemoveValue(old(config), index)
    {
      config := ConfigActions.RemoveValue(config, index);
    }

    /** `updateAggregator`: copy the list, then assign the one entry. */
    method UpdateAggregator(index: int, agg: Aggregator)
      requires 0 <= index < |config.values|
      modifies this
      ensures config == ConfigActions.UpdateAggregator(old(config), index, agg)
    {
      var newValues := config.values;
      newValues := newValues[index := newValues[index].(aggregator := agg)];
      config := config.(values := newValues);
    }

    /** `handleDragEnd`, which keeps rows and columns disjoint and
        duplicate-free. */
    method HandleDragEnd(e: ConfigActions.DragEndEvent)
      modifies this
      ensures config == ConfigActions.DragEnd(old(config), e)
      ensures ConfigActions.FieldsDisjoint(old(config)) ==> ConfigActions.FieldsDisjoint(config)
    {
      if ConfigActions.FieldsDisjoint(config) { ConfigActions.DragEndDisjoint(config, e); }
      config := ConfigActions.DragEnd(config, e);
    }

    /** `useMemo(() => getColumns(data))`: the field names of the first
        record, in order, or none without records. */
    method Columns() returns (names: seq<string>)
      ensures data == [] ==> names == []
      ensures data != [] ==> |names| == |data[0].fields|
      ensures data != [] ==> forall i :: 0 <= i < |names| ==> names[i] == data[0].fields[i].0
    {
      names := GetColumns(data);
    }

    /** `useMemo(() => performPivot(data, config))` */
    method Result(js: JsRuntime) returns (r: PivotResult)
      ensures r == Pivot(js, data, config)
    {
      r := PerformPivot(js, data, config);
    }
  }
}
