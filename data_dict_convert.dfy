/**
 * `build_data_type_map` and `process_columns` of
 * schemacrawler/data_dict_converter.py as the program runs them: a loop that
 * fills `type_map`, keeping the first name seen for each uuid, and a loop that
 * appends one row per column to `processed_rows`. Each method is proved to
 * compute exactly what the matching function of module DataDict describes,
 * raising the same exception on malformed input.
 */
module DataDictConvert {
  import opened JsonValue
  import opened DataDict
  import opened DataDictProperties

  // ---------------------------------------------------------------- build_data_type_map

  /** Lines 31-39 for one column, updating `type_map` in place: a new uuid is added, a known one keeps its first name. */
  method AddInlineType(typeMap: TypeMap, column: Json) returns (r: Result<TypeMap>)
    ensures r == TypeMapStep(typeMap, column)
  {
    if !column.JObj? {
      return Err(AttributeError);
    }
    r := Ok(typeMap);
    var info := Field(column.fields, "column-data-type", JNull);
    if info.JObj? {
      var uuid := Field(info.fields, "@uuid", JNull);
      var name := Field(info.fields, "name", JNull);
      if Truthy(uuid) && Truthy(name) {
        if !Hashable(uuid) {
          return Err(TypeError);
        }
        if uuid !in typeMap {
          r := Ok(typeMap[uuid := name]);
        }
      }
    }
  }

  /** Lines 10-42: `build_data_type_map(data)`. */
  method BuildDataTypeMap(data: Json) returns (r: Result<Option<(TypeMap, Json)>>)
    ensures r == DataTypeMap(data)
  {
    var found := ColumnsList(data);
    if found.Err? {
      return Err(found.error);
    }
    if found.value.None? {
      return Ok(None);
    }
    var columnsList := found.value.value;
    var items := Iter(columnsList);
    if items.Err? {
      return Err(items.error);
    }
    var columns := items.value;
    var typeMap: TypeMap := map[];
    var i := 0;
    while i < |columns|
      invariant 0 <= i <= |columns|
      invariant TypeMapOf(columns[..i]) == Ok(typeMap)
    {
      var step := AddInlineType(typeMap, columns[i]);
      if step.Err? {
        TypeMapFail(columns, i, typeMap);
        return Err(step.error);
      }
      TypeMapNext(columns, i, typeMap);
      typeMap := step.value;
      i := i + 1;
    }
    assert columns[..|columns|] == columns;
    r := Ok(Some((typeMap, columnsList)));
  }

  // ---------------------------------------------------------------- process_columns

  /** Lines 44-98: `process_columns(columns_list, type_map)`. */
  method ProcessColumns(columnsList: Json, typeMap: TypeMap) returns (r: Result<seq<Row>>)
    ensures r == Rows(columnsList, typeMap)
  {
    var items := Iter(columnsList);
    if items.Err? {
      return Err(items.error);
    }
    var columns := items.value;
    ghost var rs := MapResults(RowWith(typeMap), columns);
    var rows: seq<Row> := [];
    var i := 0;
    assert rs[..0] == [];
    while i < |columns|
      invariant 0 <= i <= |columns|
      invariant AllOk(rs[..i]) == Ok(rows)
    {
      var row := RowOf(columns[i], typeMap);
      assert rs[i] == row;
      if row.Err? {
        AllOkFail(rs, i, rows);
        return Err(row.error);
      }
      AllOkNext(rs, i, rows);
      rows := rows + [row.value];
      i := i + 1;
    }
    AllOkAll(rs, rows);
    r := Ok(rows);
  }

  /** Lines 146-155: the two passes `main` runs before writing the CSV. */
  method BuildDataDictionary(data: Json) returns (r: Result<Option<seq<Row>>>)
    ensures r == DataDictionary(data)
  {
    var result := BuildDataTypeMap(data);
    if result.Err? {
      return Err(result.error);
    }
    if result.value.None? {
      return Ok(None);
    }
    var (typeMap, columnsList) := result.value.value;
    var rows := ProcessColumns(columnsList, typeMap);
    if rows.Err? {
      return Err(rows.error);
    }
    r := Ok(Some(rows.value));
  }
}
