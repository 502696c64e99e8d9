/**
 * The data dictionary flattener, schemacrawler/data_dict_converter.py, as
 * functions of the decoded JSON document: `build_data_type_map`, which finds
 * the column list and maps the uuid of every data type defined inline in a
 * column to its name, the first definition winning, and `process_columns`,
 * which turns every column into one row of the dictionary. Module
 * DataDictConvert runs both as the loops the program has and is proved to
 * agree.
 */
module DataDict {
  import opened Text
  import opened JsonValue

  // ---------------------------------------------------------------- build_data_type_map

  /** `type_map`: type names by the uuid of their definition. */
  type TypeMap = map<Json, Json>

  /** `key in data` for a str key: a key of a dict, an item of a list, a substring of a str; anything else raises `TypeError`. */
  function HasKey(data: Json, key: string): Result<bool> {
    match data
    case JObj(fs) => Ok(Lookup(fs, key).Some?)
    case JArr(xs) => Ok(JStr(key) in xs)
    case JStr(s) => Ok(Contains(s, key))
    case _ => Err(TypeError)
  }

  /** `data[key]` for a key `data` holds: only a dict can be indexed by a str. */
  function KeyValue(data: Json, key: string): Result<Json> {
    if data.JObj? then Ok(Field(data.fields, key, JNull)) else Err(TypeError)
  }

  /**
   * Line 23: `block[1]` of a value with at least two items: the second item of
   * a list or the second character of a str; a dict is indexed by key, and the
   * int `1` is never a key of a decoded object, so it raises `KeyError`.
   */
  function SecondItem(block: Json): Result<Json>
    requires Len(block).Ok? && Len(block).value >= 2
  {
    match block
    case JArr(xs) => Ok(xs[1])
    case JStr(s) => Ok(JStr([s[1]]))
    case JObj(_) => Err(KeyError)
  }

  /**
   * Lines 18-26: the column list, or `None` when `all-table-columns` is
   * missing or shorter than two. The `except` at lines 24-26 never fires: once
   * the length is known to be two or more, indexing at 1 either succeeds or
   * raises `KeyError`, which it does not catch.
   */
  function ColumnsList(data: Json): Result<Option<Json>> {
    var has :- HasKey(data, "all-table-columns");
    if !has then Ok(None)
    else
      var block :- KeyValue(data, "all-table-columns");
      var n :- Len(block);
      if n < 2 then Ok(None)
      else
        var columns :- SecondItem(block);
        Ok(Some(columns))
  }

  /** Lines 31-36: the uuid and the name of a data type defined inline in a column, when both are true. */
  function InlineType(column: Json): Option<(Json, Json)> {
    if !column.JObj? then None
    else
      var info := Field(column.fields, "column-data-type", JNull);
      if !info.JObj? then None
      else
        var uuid := Field(info.fields, "@uuid", JNull);
        var name := Field(info.fields, "name", JNull);
        if Truthy(uuid) && Truthy(name) then Some((uuid, name)) else None
  }

  /** Lines 31-39: one pass of the loop: a column that is not a dict has no `get`; a uuid that is a list or a dict cannot be looked up. */
  function TypeMapStep(typeMap: TypeMap, column: Json): Result<TypeMap> {
    var col :- AsDict(column);
    match InlineType(column)
    case None => Ok(typeMap)
    case Some((uuid, name)) =>
      var seen :- MapHas(typeMap, uuid);
      Ok(if seen then typeMap else typeMap[uuid := name])
  }

  /** Lines 30-39: `type_map` after the loop over these columns, or its first exception. */
  function TypeMapOf(columns: seq<Json>): Result<TypeMap>
    decreases |columns|
  {
    if columns == [] then Ok(map[])
    else
      var typeMap :- TypeMapOf(columns[..|columns| - 1]);
      TypeMapStep(typeMap, columns[|columns| - 1])
  }

  /**
   * Lines 10-42: `build_data_type_map(data)`: `None`, or the map and the
   * column list. Line 28 takes the length of the list, which fails exactly
   * when iterating it would.
   */
  function DataTypeMap(data: Json): Result<Option<(TypeMap, Json)>> {
    var found :- ColumnsList(data);
    if found.None? then Ok(None)
    else
      var columns :- Iter(found.value);
      var typeMap :- TypeMapOf(columns);
      Ok(Some((typeMap, found.value)))
  }

  // ---------------------------------------------------------------- process_columns

  /** Lines 83-95: one row of the dictionary, its fields in the order of the CSV columns. */
  datatype Row = Row(
    schema: string,
    table: string,
    column: Json,
    position: Json,
    dataType: Json,
    size: Json,
    nullable: string,
    pk: string,
    fk: string,
    default: Json,
    remarks: Json)

  /**
   * Lines 54-63: schema, table and column from a `full-name` with three
   * dot-separated parts, table and column from one with two, and otherwise
   * only the column, from `name`.
   */
  function NameParts(full: string, name: Json): (string, string, Json) {
    var parts := Split(full, '.');
    if |parts| == 3 then (parts[0], parts[1], JStr(parts[2]))
    else if |parts| == 2 then ("", parts[0], JStr(parts[1]))
    else ("", "", name)
  }

  /** Lines 66-74: the name of an inline type, the name a uuid reference maps to, `"Unknown Ref"` for an unknown one, and `"Unknown"` otherwise. */
  function DataTypeName(info: Json, typeMap: TypeMap): Json {
    if info.JObj? then Field(info.fields, "name", JNull)
    else if info.JStr? then (if info in typeMap then typeMap[info] else JStr("Unknown Ref"))
    else JStr("Unknown")
  }

  /** Lines 77-80: `remarks`, or `attributes.REMARKS` when that is false; an `attributes` that is not a dict has no `get`. */
  function RemarksOf(col: Dict): Result<Json> {
    var remarks := Field(col, "remarks", JStr(""));
    if Truthy(remarks) then Ok(remarks)
    else
      var attributes :- AsDict(Field(col, "attributes", JObj([])));
      Ok(Field(attributes, "REMARKS", JStr("")))
  }

  /** `'Yes' if v else 'No'` */
  function YesNo(v: Json): string {
    if Truthy(v) then "Yes" else "No"
  }

  /** Lines 53-95: the row of one column; a column that is not a dict, or whose `full-name` is not a str, has no `get` or `split`. */
  function RowOf(column: Json, typeMap: TypeMap): Result<Row> {
    var col :- AsDict(column);
    var full := Field(col, "full-name", JStr(""));
    if !full.JStr? then Err(AttributeError)
    else
      var (schema, table, name) := NameParts(full.s, Field(col, "name", JStr("unknown_column")));
      var remarks :- RemarksOf(col);
      Ok(Row(
        schema,
        table,
        name,
        Field(col, "ordinal-position", JNull),
        DataTypeName(Field(col, "column-data-type", JNull), typeMap),
        Field(col, "size", JNull),
        YesNo(Field(col, "nullable", JNull)),
        YesNo(Field(col, "part-of-primary-key", JNull)),
        YesNo(Field(col, "part-of-foreign-key", JNull)),
        Or(Field(col, "default-value", JNull), JStr("")),
        remarks))
  }

  /** The row of a column for a given map: the function the loop of `process_columns` applies. */
  function RowWith(typeMap: TypeMap): Json -> Result<Row> {
    column => RowOf(column, typeMap)
  }

  /** Lines 44-98: `process_columns(columns_list, type_map)`: a row per column, in order, or the first exception. */
  function Rows(columnsList: Json, typeMap: TypeMap): Result<seq<Row>> {
    var columns :- Iter(columnsList);
    AllOk(MapResults(RowWith(typeMap), columns))
  }

  /** Lines 146-155: the rows `main` hands to `write_csv`, or `None` when no column list was found. */
  function DataDictionary(data: Json): Result<Option<seq<Row>>> {
    var result :- DataTypeMap(data);
    if result.None? then Ok(None)
    else
      var rows :- Rows(result.value.1, result.value.0);
      Ok(Some(rows))
  }
}
