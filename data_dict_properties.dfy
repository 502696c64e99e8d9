/**
 * What schemacrawler/data_dict_converter.py promises of its two passes: where
 * the column list is found and when it is not, that a uuid maps to the name
 * of its first inline definition, that there is exactly one row per column in
 * column order, how each field of a row is filled, and which inputs raise.
 */
module DataDictProperties {
  import opened Text
  import opened JsonValue
  import opened DataDict

  // ---------------------------------------------------------------- the column list

  const ColumnsKey := "all-table-columns"

  /** The column list is the second item of the two-or-more-item list, or the second character of the str, stored under the key. */
  lemma ColumnsListFound(data: Json, columns: Json)
    ensures ColumnsList(data) == Ok(Some(columns)) <==>
      && data.JObj?
      && Lookup(data.fields, ColumnsKey).Some?
      && var block := Lookup(data.fields, ColumnsKey).value;
         || (block.JArr? && |block.items| >= 2 && columns == block.items[1])
         || (block.JStr? && |block.s| >= 2 && columns == JStr([block.s[1]]))
  {
  }

  /** No column list: the key is missing (from a dict, a list or a str) or holds fewer than two items. */
  lemma ColumnsListMissing(data: Json)
    ensures ColumnsList(data) == Ok(None) <==>
      || (data.JObj? && (Lookup(data.fields, ColumnsKey).None? ||
           (Len(Lookup(data.fields, ColumnsKey).value).Ok? && Len(Lookup(data.fields, ColumnsKey).value).value < 2)))
      || (data.JArr? && JStr(ColumnsKey) !in data.items)
      || (data.JStr? && !Contains(data.s, ColumnsKey))
  {
  }

  /** Only a dict under the key with two or more members raises `KeyError`; every other failure is a `TypeError`. */
  lemma ColumnsListErrors(data: Json)
    ensures ColumnsList(data).Err? ==> ColumnsList(data).error in {TypeError, KeyError}
    ensures ColumnsList(data) == Err(KeyError) <==>
      && data.JObj?
      && Lookup(data.fields, ColumnsKey).Some?
      && Lookup(data.fields, ColumnsKey).value.JObj?
      && |Lookup(data.fields, ColumnsKey).value.fields| >= 2
  {
  }

  // ---------------------------------------------------------------- the type map

  /** A column the first pass gets through: a dict whose inline type, if any, has a uuid that can be a key. */
  predicate ColumnOk(column: Json) {
    column.JObj? && (InlineType(column).Some? ==> Hashable(InlineType(column).value.0))
  }

  /** A column defines type `k` inline. */
  predicate Defines(column: Json, k: Json) {
    InlineType(column).Some? && InlineType(column).value.0 == k
  }

  /** Reference definition: the name given by the first column that defines `k`, read from the front. */
  function FirstDefinition(columns: seq<Json>, k: Json): Option<Json> {
    if columns == [] then None
    else if Defines(columns[0], k) then Some(InlineType(columns[0]).value.1)
    else FirstDefinition(columns[1..], k)
  }

  /** One pass of the loop: a known uuid keeps its name, a new one is added, and the only failures are a non-dict column and an unhashable uuid. */
  lemma TypeMapStepCases(typeMap: TypeMap, column: Json)
    ensures TypeMapStep(typeMap, column).Ok? <==> ColumnOk(column)
    ensures TypeMapStep(typeMap, column).Err? ==>
      TypeMapStep(typeMap, column).error == (if column.JObj? then TypeError else AttributeError)
    ensures TypeMapStep(typeMap, column).Ok? ==>
      var m := TypeMapStep(typeMap, column).value;
      && m.Keys == typeMap.Keys + (if InlineType(column).Some? then {InlineType(column).value.0} else {})
      && forall u :: u in typeMap ==> m[u] == typeMap[u]
  {
  }

  lemma TypeMapNext(columns: seq<Json>, i: nat, typeMap: TypeMap)
    requires i < |columns| && TypeMapOf(columns[..i]) == Ok(typeMap)
    ensures TypeMapOf(columns[..i + 1]) == TypeMapStep(typeMap, columns[i])
  {
    assert columns[..i + 1][..i] == columns[..i] && columns[..i + 1][i] == columns[i];
  }

  lemma {:induction false} TypeMapStop(columns: seq<Json>, n: nat)
    requires n <= |columns| && TypeMapOf(columns[..n]).Err?
    ensures TypeMapOf(columns) == TypeMapOf(columns[..n])
    decreases |columns|
  {
    if n < |columns| {
      var init := columns[..|columns| - 1];
      assert init[..n] == columns[..n];
      TypeMapStop(init, n);
    } else {
      assert columns[..n] == columns;
    }
  }

  lemma TypeMapFail(columns: seq<Json>, i: nat, typeMap: TypeMap)
    requires i < |columns| && TypeMapOf(columns[..i]) == Ok(typeMap)
    requires TypeMapStep(typeMap, columns[i]).Err?
    ensures TypeMapOf(columns) == Err(TypeMapStep(typeMap, columns[i]).error)
  {
    TypeMapNext(columns, i, typeMap);
    TypeMapStop(columns, i + 1);
  }

  /** The first pass succeeds exactly when every column gets through it. */
  lemma {:induction false} TypeMapOk(columns: seq<Json>)
    ensures TypeMapOf(columns).Ok? <==> forall i :: 0 <= i < |columns| ==> ColumnOk(columns[i])
    decreases |columns|
  {
    if columns != [] {
      var init := columns[..|columns| - 1];
      var last := columns[|columns| - 1];
      TypeMapOk(init);
      assert forall i :: 0 <= i < |init| ==> init[i] == columns[i];
      if TypeMapOf(init).Ok? {
        TypeMapStepCases(TypeMapOf(init).value, last);
      }
    }
  }

  /** The exception is decided by the first column that does not get through: `AttributeError` for a non-dict, `TypeError` for an unhashable uuid. */
  lemma TypeMapFirstError(columns: seq<Json>, i: nat)
    requires i < |columns| && !ColumnOk(columns[i])
    requires forall j :: 0 <= j < i ==> ColumnOk(columns[j])
    ensures TypeMapOf(columns) == Err(if columns[i].JObj? then TypeError else AttributeError)
  {
    TypeMapOk(columns[..i]);
    var typeMap := TypeMapOf(columns[..i]).value;
    TypeMapStepCases(typeMap, columns[i]);
    TypeMapFail(columns, i, typeMap);
  }

  lemma {:induction false} FirstDefinitionSnoc(columns: seq<Json>, column: Json, k: Json)
    ensures FirstDefinition(columns + [column], k) ==
      if FirstDefinition(columns, k).Some? then FirstDefinition(columns, k)
      else if Defines(column, k) then Some(InlineType(column).value.1)
      else None
    decreases |columns|
  {
    if columns == [] {
      assert columns + [column] == [column];
    } else {
      assert (columns + [column])[1..] == columns[1..] + [column];
      FirstDefinitionSnoc(columns[1..], column, k);
    }
  }

  /** `type_map` holds exactly the uuids some column defines, each mapped to the name in its first definition. */
  lemma {:induction false} TypeMapFirstWins(columns: seq<Json>, k: Json)
    requires TypeMapOf(columns).Ok?
    ensures k in TypeMapOf(columns).value <==> FirstDefinition(columns, k).Some?
    ensures k in TypeMapOf(columns).value ==> TypeMapOf(columns).value[k] == FirstDefinition(columns, k).value
    decreases |columns|
  {
    if columns != [] {
      var init := columns[..|columns| - 1];
      var last := columns[|columns| - 1];
      assert columns == init + [last];
      TypeMapFirstWins(init, k);
      FirstDefinitionSnoc(init, last, k);
      TypeMapStepCases(TypeMapOf(init).value, last);
    }
  }

  /** The first definition is the one at the first column that defines `k`. */
  lemma {:induction false} FirstDefinitionAt(columns: seq<Json>, k: Json, i: nat)
    requires i < |columns| && Defines(columns[i], k)
    requires forall j :: 0 <= j < i ==> !Defines(columns[j], k)
    ensures FirstDefinition(columns, k) == Some(InlineType(columns[i]).value.1)
    decreases i
  {
    if i > 0 {
      FirstDefinitionAt(columns[1..], k, i - 1);
    }
  }

  /** There is no first definition exactly when no column defines `k`. */
  lemma {:induction false} FirstDefinitionNone(columns: seq<Json>, k: Json)
    ensures FirstDefinition(columns, k).None? <==> forall i :: 0 <= i < |columns| ==> !Defines(columns[i], k)
    decreases |columns|
  {
    if columns != [] {
      FirstDefinitionNone(columns[1..], k);
      assert forall i :: 1 <= i < |columns| ==> columns[i] == columns[1..][i - 1];
    }
  }

  /** Only true uuids with true names enter the map. */
  lemma {:induction false} TypeMapTruthy(columns: seq<Json>, k: Json)
    requires TypeMapOf(columns).Ok? && k in TypeMapOf(columns).value
    ensures Truthy(k) && Truthy(TypeMapOf(columns).value[k])
  {
    TypeMapFirstWins(columns, k);
    FirstDefinitionTruthy(columns, k);
  }

  lemma {:induction false} FirstDefinitionTruthy(columns: seq<Json>, k: Json)
    requires FirstDefinition(columns, k).Some?
    ensures Truthy(k) && Truthy(FirstDefinition(columns, k).value)
    decreases |columns|
  {
    if !Defines(columns[0], k) {
      FirstDefinitionTruthy(columns[1..], k);
    }
  }

  // ---------------------------------------------------------------- the rows

  /** Joining three pieces with dots. */
  lemma JoinThree(parts: seq<string>)
    requires |parts| == 3
    ensures Join(parts, ".") == parts[0] + "." + parts[1] + "." + parts[2]
  {
    var tail := parts[1..];
    assert tail[1..] == [parts[2]];
    assert Join(tail, ".") == parts[1] + "." + parts[2];
    assert Join(parts, ".") == parts[0] + "." + Join(tail, ".");
  }

  /** Joining two pieces with a dot. */
  lemma JoinTwo(parts: seq<string>)
    requires |parts| == 2
    ensures Join(parts, ".") == parts[0] + "." + parts[1]
  {
    assert parts[1..] == [parts[1]];
  }

  /** A `full-name` with two dots is schema, table and column, none holding a dot. */
  lemma NamePartsThree(full: string, name: Json)
    requires CountChar(full, '.') == 2
    ensures var (schema, table, column) := NameParts(full, name);
      && column.JStr? && schema + "." + table + "." + column.s == full
      && '.' !in schema && '.' !in table && '.' !in column.s
  {
    SplitJoin(full, '.');
    JoinThree(Split(full, '.'));
  }

  /** A `full-name` with one dot is table and column, in no schema. */
  lemma NamePartsTwo(full: string, name: Json)
    requires CountChar(full, '.') == 1
    ensures var (schema, table, column) := NameParts(full, name);
      && schema == "" && column.JStr? && table + "." + column.s == full
      && '.' !in table && '.' !in column.s
  {
    SplitJoin(full, '.');
    JoinTwo(Split(full, '.'));
  }

  /** Any other `full-name` leaves schema and table empty and keeps the column's `name`. */
  lemma NamePartsOther(full: string, name: Json)
    requires CountChar(full, '.') != 1 && CountChar(full, '.') != 2
    ensures NameParts(full, name) == ("", "", name)
  {
  }

  /** A column the second pass gets through: a dict with a str `full-name` (or none), and a dict `attributes` when it needs one for the remarks. */
  predicate RowOk(column: Json) {
    && column.JObj?
    && Field(column.fields, "full-name", JStr("")).JStr?
    && (Truthy(Field(column.fields, "remarks", JStr(""))) || Field(column.fields, "attributes", JObj([])).JObj?)
  }

  /** Every failure of a row is an `AttributeError`, and which columns fail does not depend on the map. */
  lemma RowOfOk(column: Json, typeMap: TypeMap)
    ensures RowOf(column, typeMap).Ok? <==> RowOk(column)
    ensures RowOf(column, typeMap).Err? ==> RowOf(column, typeMap).error == AttributeError
  {
  }

  /** `process_columns`: one row per column, in column order, or the exception of the first failing column. */
  lemma RowsOnePerColumn(columnsList: Json, typeMap: TypeMap)
    ensures Iter(columnsList).Err? ==> Rows(columnsList, typeMap) == Err(TypeError)
    ensures Rows(columnsList, typeMap).Ok? <==>
      Iter(columnsList).Ok? && forall i :: 0 <= i < |Iter(columnsList).value| ==> RowOk(Iter(columnsList).value[i])
    ensures Rows(columnsList, typeMap).Ok? ==>
      var columns := Iter(columnsList).value;
      var rows := Rows(columnsList, typeMap).value;
      |rows| == |columns| && forall i :: 0 <= i < |columns| ==> rows[i] == RowOf(columns[i], typeMap).value
  {
    if Iter(columnsList).Ok? {
      var columns := Iter(columnsList).value;
      AllOkMap(RowWith(typeMap), columns);
      forall i | 0 <= i < |columns|
        ensures RowWith(typeMap)(columns[i]).Ok? <==> RowOk(columns[i])
      {
        RowOfOk(columns[i], typeMap);
      }
    }
  }

  /** The yes/no fields say whether the column's flag is true. */
  lemma RowFlags(column: Json, typeMap: TypeMap)
    requires RowOf(column, typeMap).Ok?
    ensures var r := RowOf(column, typeMap).value;
      var fs := column.fields;
      && (r.nullable == "Yes" <==> Truthy(Field(fs, "nullable", JNull)))
      && (r.pk == "Yes" <==> Truthy(Field(fs, "part-of-primary-key", JNull)))
      && (r.fk == "Yes" <==> Truthy(Field(fs, "part-of-foreign-key", JNull)))
      && r.nullable in {"Yes", "No"} && r.pk in {"Yes", "No"} && r.fk in {"Yes", "No"}
  {
  }

  /** The copied fields: a false default becomes `''`, false remarks fall back to `attributes.REMARKS`, and the names come from `full-name`. */
  lemma RowValues(column: Json, typeMap: TypeMap)
    requires RowOf(column, typeMap).Ok?
    ensures var r := RowOf(column, typeMap).value;
      var fs := column.fields;
      var d := Field(fs, "default-value", JNull);
      var remarks := Field(fs, "remarks", JStr(""));
      && r.position == Field(fs, "ordinal-position", JNull)
      && r.size == Field(fs, "size", JNull)
      && r.default == (if Truthy(d) then d else JStr(""))
      && (Truthy(remarks) ==> r.remarks == remarks)
      && (!Truthy(remarks) ==> r.remarks == Field(Field(fs, "attributes", JObj([])).fields, "REMARKS", JStr("")))
      && (r.schema, r.table, r.column) == NameParts(Field(fs, "full-name", JStr("")).s, Field(fs, "name", JStr("unknown_column")))
  {
  }

  /** The data type: an inline definition's own name, a reference's name in the map or `"Unknown Ref"`, and `"Unknown"` for anything else. */
  lemma RowDataType(column: Json, typeMap: TypeMap)
    requires RowOf(column, typeMap).Ok?
    ensures var r := RowOf(column, typeMap).value;
      var info := Field(column.fields, "column-data-type", JNull);
      && (info.JObj? ==> r.dataType == Field(info.fields, "name", JNull))
      && (info.JStr? && info in typeMap ==> r.dataType == typeMap[info])
      && (info.JStr? && info !in typeMap ==> r.dataType == JStr("Unknown Ref"))
      && (!info.JObj? && !info.JStr? ==> r.dataType == JStr("Unknown"))
  {
  }

  // ---------------------------------------------------------------- both passes

  /** Once the column list is found, the dictionary exists exactly when every column gets through both passes, with one row per column. */
  lemma DataDictionaryRows(data: Json, columnsList: Json)
    requires ColumnsList(data) == Ok(Some(columnsList))
    ensures DataDictionary(data).Ok? <==>
      Iter(columnsList).Ok? &&
      forall i :: 0 <= i < |Iter(columnsList).value| ==>
        ColumnOk(Iter(columnsList).value[i]) && RowOk(Iter(columnsList).value[i])
    ensures DataDictionary(data).Ok? ==>
      DataDictionary(data).value.Some? && |DataDictionary(data).value.value| == |Iter(columnsList).value|
  {
    if Iter(columnsList).Ok? {
      var columns := Iter(columnsList).value;
      TypeMapOk(columns);
      if TypeMapOf(columns).Ok? {
        RowsOnePerColumn(columnsList, TypeMapOf(columns).value);
      }
    }
  }

  /** A column that refers to a type by uuid gets the name of the first column that defines it, or `"Unknown Ref"` when none does. */
  lemma DataDictionaryReferences(data: Json, columnsList: Json, i: nat)
    requires ColumnsList(data) == Ok(Some(columnsList)) && DataDictionary(data).Ok?
    requires Iter(columnsList).Ok? && i < |Iter(columnsList).value|
    ensures DataDictionary(data).value.Some?
    ensures var columns := Iter(columnsList).value;
      var rows := DataDictionary(data).value.value;
      && |rows| == |columns| && columns[i].JObj?
      && var info := Field(columns[i].fields, "column-data-type", JNull);
         info.JStr? ==> rows[i].dataType == (match FirstDefinition(columns, info) case Some(n) => n case None => JStr("Unknown Ref"))
  {
    var columns := Iter(columnsList).value;
    TypeMapOk(columns);
    var typeMap := TypeMapOf(columns).value;
    RowsOnePerColumn(columnsList, typeMap);
    RowOfOk(columns[i], typeMap);
    RowDataType(columns[i], typeMap);
    var info := Field(columns[i].fields, "column-data-type", JNull);
    TypeMapFirstWins(columns, info);
  }
}
