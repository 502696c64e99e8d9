/**
 * The DBML converter of schemacrawler/json_dbml_converter.py as functions:
 * tagged-container unwrapping, the `@uuid` index, data-type resolution,
 * identifier quoting, default formatting, and the table/column/index/foreign-key
 * emission of `convert_to_dbml`, each step with the exception it can raise.
 * The imperative rendering of the same steps is module JsonDbmlConvert.
 */
module JsonDbml {
  import opened Text
  import opened JsonValue

  /** Objects by `@uuid`, as `collect_uuid_map` builds them. */
  type UuidMap = map<Json, Dict>

  /** Column objects by their `@uuid`, as `col_by_id` holds them. */
  type ColumnIndex = map<Json, Dict>

  // ---------------------------------------------------------------- tagged containers

  /** A `[type-name, payload]` pair whose type name starts with `java.util`. */
  predicate IsJavaContainer(obj: Json) {
    && obj.JArr?
    && |obj.items| >= 2
    && obj.items[0].JStr?
    && StartsWith(obj.items[0].s, "java.util")
  }

  /** The payload of a tagged container; any other value unchanged. */
  function Unwrap(obj: Json): Json {
    if IsJavaContainer(obj) then obj.items[1] else obj
  }

  /** `unwrap(x) or []`, the form in which every collection-valued member is read. */
  function Collection(x: Json): Json {
    Or(Unwrap(x), JArr([]))
  }

  // ---------------------------------------------------------------- the @uuid index

  /** The `@uuid` member of an object, `None` when absent. */
  function UuidOf(d: Dict): Json {
    Field(d, "@uuid", JNull)
  }

  /** The writes `uuid_map[uid] = obj` made for these objects, in order: one per object with a truthy `@uuid`. */
  function UuidWrites(ds: seq<Dict>): (ws: seq<(Json, Dict)>)
    ensures |ws| <= |ds|
    ensures forall i :: 0 <= i < |ws| ==> Truthy(ws[i].0) && UuidOf(ws[i].1) == ws[i].0 && ws[i].1 in ds
    decreases |ds|
  {
    if ds == [] then []
    else
      var init := UuidWrites(ds[..|ds| - 1]);
      var d := ds[|ds| - 1];
      if Truthy(UuidOf(d)) then init + [(UuidOf(d), d)] else init
  }

  lemma {:induction false} UuidWritesAppend(a: seq<Dict>, b: seq<Dict>)
    ensures UuidWrites(a + b) == UuidWrites(a) + UuidWrites(b)
    decreases |b|
  {
    if b == [] {
      assert a + b == a;
    } else {
      var b' := b[..|b| - 1];
      assert (a + b)[..|a + b| - 1] == a + b';
      UuidWritesAppend(a, b');
    }
  }

  /** The writes for a prefix of the objects are a prefix of the writes for all of them. */
  lemma UuidWritesPrefix(a: seq<Dict>, b: seq<Dict>)
    requires a <= b
    ensures UuidWrites(a) <= UuidWrites(b)
  {
    assert b == a + b[|a|..];
    UuidWritesAppend(a, b[|a|..]);
  }

  /** Every object with a truthy `@uuid` among `ds` gives a write. */
  lemma {:induction false} UuidWritesCover(ds: seq<Dict>, d: Dict)
    requires d in ds && Truthy(UuidOf(d))
    ensures (UuidOf(d), d) in UuidWrites(ds)
    decreases |ds|
  {
    if ds[|ds| - 1] != d {
      UuidWritesCover(ds[..|ds| - 1], d);
    }
  }

  /**
   * The index `collect_uuid_map` builds over the whole tree: `TypeError` when a
   * truthy `@uuid` is a list or an object, since such a value cannot be a key.
   */
  function UuidMapOf(data: Json): Result<UuidMap> {
    var ws := UuidWrites(Objects(data));
    if AllHashable(ws) then Ok(Record(map[], ws)) else Err(TypeError)
  }

  // ---------------------------------------------------------------- data types, identifiers, defaults

  /** The type-name members `resolve_datatype` tries, in priority order. */
  const TypeNameKeys: seq<string> := ["name", "database-specific-type-name", "full-name"]

  /** `d.get('name') or d.get('database-specific-type-name') or d.get('full-name') or 'varchar'` */
  function TypeNameIn(d: Dict): Json {
    Or(Field(d, "name", JNull), Or(Field(d, "database-specific-type-name", JNull), Or(Field(d, "full-name", JNull), JStr("varchar"))))
  }

  /** The object `resolve_datatype` reads: the inline object, or the non-empty object a uuid string names. */
  function TypeSource(dtref: Json, uuids: UuidMap): Option<Dict> {
    if dtref.JObj? then Some(dtref.fields)
    else if dtref.JStr? && dtref in uuids && uuids[dtref] != [] then Some(uuids[dtref])
    else None
  }

  /** `resolve_datatype`: the display name of a column's data type, never a false value. */
  function ResolveDatatype(dtref: Json, uuids: UuidMap): (r: Json)
    ensures Truthy(r)
  {
    match TypeSource(dtref, uuids)
    case Some(d) => TypeNameIn(d)
    case None => JStr("varchar")
  }

  predicate IdentStart(c: char) {
    'A' <= c <= 'Z' || 'a' <= c <= 'z' || c == '_'
  }

  predicate IdentChar(c: char) {
    IdentStart(c) || '0' <= c <= '9'
  }

  /** The whole text is one `[A-Za-z_][A-Za-z0-9_]*`. */
  predicate IsPlainIdentifier(s: string) {
    |s| >= 1 && IdentStart(s[0]) && forall i :: 1 <= i < |s| ==> IdentChar(s[i])
  }

  /**
   * What `re.match(r'^[A-Za-z_][A-Za-z0-9_]*$', s)` accepts: Python's `$` also
   * matches just before a newline that ends the text.
   */
  predicate RegexAccepts(s: string) {
    IsPlainIdentifier(s) || (|s| >= 2 && s[|s| - 1] == '\n' && IsPlainIdentifier(s[..|s| - 1]))
  }

  /** `sanitize_identifier` as written: a name ending in a newline passes the pattern and stays bare. */
  function SanitizeIdentifierAsWritten(name: Json): Result<string> {
    match name
    case JNull => Ok("")
    case JStr(s) => Ok(if RegexAccepts(s) then s else "`" + s + "`")
    case _ => Err(TypeError)
  }

  /**
   * `sanitize_identifier` with the pattern anchored at the very end of the text:
   * `None` gives the empty text, a plain identifier stays as it is, any other
   * name is put in backticks, and a non-string (which `re.match` refuses) raises.
   */
  function SanitizeIdentifier(name: Json): Result<string> {
    match name
    case JNull => Ok("")
    case JStr(s) => Ok(if IsPlainIdentifier(s) then s else "`" + s + "`")
    case _ => Err(TypeError)
  }

  /**
   * Sanitizes each name in turn, as `', '.join(sanitize_identifier(n) for n in names)`
   * does: the i-th text is the i-th name sanitized, and the first name that is
   * neither `None` nor a string raises `TypeError`.
   */
  function SanitizeAll(names: seq<Json>): (r: Result<seq<string>>)
    ensures r.Ok? <==> forall i :: 0 <= i < |names| ==> names[i].JNull? || names[i].JStr?
    ensures r.Ok? ==> |r.value| == |names| && forall i :: 0 <= i < |names| ==> r.value[i] == SanitizeIdentifier(names[i]).value
    ensures r.Err? ==> r.error == TypeError
  {
    AllOkMap(SanitizeIdentifier, names);
    AllOkFirstError(MapResults(SanitizeIdentifier, names));
    AllOk(MapResults(SanitizeIdentifier, names))
  }

  /** `format_default`: no default for `None` or `''`; otherwise `str(val)` with newlines as spaces, in backticks. */
  function FormatDefault(val: Json): Option<string> {
    if val == JNull || val == JStr("") then None
    else Some("`" + ReplaceChar(PyStr(val), '\n', " ") + "`")
  }

  /** `(x or '').strip()`: a text member read with `None` as empty; a non-string raises `AttributeError`. */
  function RemarkText(x: Json): Result<string> {
    var v := Or(x, JStr(""));
    if v.JStr? then Ok(Strip(v.s)) else Err(AttributeError)
  }

  // ---------------------------------------------------------------- tables and columns

  /** `get_table_obj`: an inline object as it is, otherwise the object its uuid names (`None` if absent). */
  function GetTableObj(entry: Json, uuids: UuidMap): Result<Option<Dict>> {
    if entry.JObj? then Ok(Some(entry.fields)) else MapFind(uuids, entry)
  }

  /** `[get_table_obj(e) for e in entries if get_table_obj(e)]` */
  function TableObjects(entries: seq<Json>, uuids: UuidMap): (r: Result<seq<Dict>>)
    ensures r.Ok? ==> |r.value| <= |entries| && forall i :: 0 <= i < |r.value| ==> r.value[i] != []
    decreases |entries|
  {
    if entries == [] then Ok([])
    else
      var init :- TableObjects(entries[..|entries| - 1], uuids);
      var t :- GetTableObj(entries[|entries| - 1], uuids);
      if t.Some? && t.value != [] then Ok(init + [t.value]) else Ok(init)
  }

  /** The writes `{c.get('@uuid'): c for c in columns if isinstance(c, dict)}` makes, in order. */
  function ColumnWrites(columns: seq<Json>): seq<(Json, Dict)>
    decreases |columns|
  {
    if columns == [] then []
    else
      var init := ColumnWrites(columns[..|columns| - 1]);
      var c := columns[|columns| - 1];
      if c.JObj? then init + [(UuidOf(c.fields), c.fields)] else init
  }

  /** `col_by_id`; `TypeError` when some column's `@uuid` is a list or an object. */
  function ColumnIndexOf(columns: seq<Json>): Result<ColumnIndex> {
    var ws := ColumnWrites(columns);
    if AllHashable(ws) then Ok(Record(map[], ws)) else Err(TypeError)
  }

  /** `[col_by_id[cid] for cid in ids if cid in col_by_id]` */
  function FindColumns(ids: seq<Json>, byId: ColumnIndex): (r: Result<seq<Dict>>)
    ensures r.Ok? ==> |r.value| <= |ids|
    decreases |ids|
  {
    if ids == [] then Ok([])
    else
      var init :- FindColumns(ids[..|ids| - 1], byId);
      var present :- MapHas(byId, ids[|ids| - 1]);
      if present then Ok(init + [byId[ids[|ids| - 1]]]) else Ok(init)
  }

  /** `[col_by_id[cid]['name'] for cid in ids if cid in col_by_id]`; a column without a `name` raises `KeyError`. */
  function ColumnNames(ids: seq<Json>, byId: ColumnIndex): (r: Result<seq<Json>>)
    ensures r.Ok? ==> |r.value| <= |ids|
    decreases |ids|
  {
    if ids == [] then Ok([])
    else
      var init :- ColumnNames(ids[..|ids| - 1], byId);
      var present :- MapHas(byId, ids[|ids| - 1]);
      if !present then Ok(init)
      else match Lookup(byId[ids[|ids| - 1]], "name")
        case Some(n) => Ok(init + [n])
        case None => Err(KeyError)
  }

  // ---------------------------------------------------------------- ordering columns

  /** A sort key as Python compares it: ints and bools as integers, strings by code points; anything else cannot be compared. */
  datatype SortKey = IntKey(n: int) | StrKey(s: string) | Incomparable

  /** The key `c.get('ordinal-position', 0)`: a missing ordinal counts as 0. */
  function KeyOf(c: Dict): SortKey {
    match Field(c, "ordinal-position", JInt(0))
    case JInt(n) => IntKey(n)
    case JBool(b) => IntKey(if b then 1 else 0)
    case JStr(s) => StrKey(s)
    case _ => Incomparable
  }

  /** `not (b < a)` for two keys of one kind. */
  predicate KeyLeq(a: SortKey, b: SortKey) {
    match (a, b)
    case (IntKey(x), IntKey(y)) => x <= y
    case (StrKey(x), StrKey(y)) => !Less(y, x)
    case _ => false
  }

  /** The key is an integer key (`ints`) or a string key (`!ints`). */
  predicate OfKind(k: SortKey, ints: bool) {
    if ints then k.IntKey? else k.StrKey?
  }

  predicate AllOfKind(s: seq<Dict>, ints: bool) {
    forall i :: 0 <= i < |s| ==> OfKind(KeyOf(s[i]), ints)
  }

  /** Keys Python's sort can compare with one another: all integers, or all strings. */
  predicate Comparable(s: seq<Dict>) {
    AllOfKind(s, true) || AllOfKind(s, false)
  }

  /** Places `c` before the first column whose key is not smaller, so equal keys keep their order. */
  function InsertByKey(c: Dict, s: seq<Dict>): (r: seq<Dict>)
    ensures multiset(r) == multiset(s) + multiset{c}
    ensures |r| == |s| + 1
  {
    if s == [] || KeyLeq(KeyOf(c), KeyOf(s[0])) then [c] + s
    else
      assert s == [s[0]] + s[1..];
      [s[0]] + InsertByKey(c, s[1..])
  }

  /** A stable insertion sort by key, the result of `cols.sort(key=...)`. */
  function SortByKey(s: seq<Dict>): (r: seq<Dict>)
    ensures multiset(r) == multiset(s)
    ensures |r| == |s|
  {
    if s == [] then []
    else
      assert s == [s[0]] + s[1..];
      InsertByKey(s[0], SortByKey(s[1..]))
  }

  /**
   * `cols.sort(key=lambda c: c.get('ordinal-position', 0))`: with two or more
   * columns the sort compares every key with some other, so keys that are not
   * all integers or all strings raise `TypeError`.
   */
  function SortColumns(cols: seq<Dict>): Result<seq<Dict>> {
    if |cols| >= 2 && !Comparable(cols) then Err(TypeError)
    else Ok(SortByKey(cols))
  }

  predicate SortedByKey(s: seq<Dict>) {
    forall i, j :: 0 <= i < j < |s| ==> KeyLeq(KeyOf(s[i]), KeyOf(s[j]))
  }

  /** The columns of `s` whose key is `k`, in the order of `s`. */
  function WithKey(s: seq<Dict>, k: SortKey): seq<Dict> {
    if s == [] then [] else (if KeyOf(s[0]) == k then [s[0]] else []) + WithKey(s[1..], k)
  }

  // ---------------------------------------------------------------- column lines

  /** The primary-key construct: its unwrapped column-id collection and the names of the ids that resolve. */
  datatype PrimaryKey = PrimaryKey(ids: Json, names: seq<Json>)

  /** Lines 78-83: the primary key a truthy `primary-key` uuid names, and its column names. */
  function PrimaryKeyOf(pkId: Json, uuids: UuidMap, byId: ColumnIndex): Result<Option<PrimaryKey>> {
    if !Truthy(pkId) then Ok(None)
    else
      var present :- MapHas(uuids, pkId);
      if !present then Ok(None)
      else
        var ids := Collection(Field(uuids[pkId], "columns", JArr([])));
        var idSeq :- Iter(ids);
        var names :- ColumnNames(idSeq, byId);
        Ok(Some(PrimaryKey(ids, names)))
  }

  /** The attribute list of lines 89-102 from its five decisions, in the order `pk`, `not null`, `unique`, `default`, `note`. */
  function AttrList(isPk: bool, notNull: bool, unique: bool, dval: Option<string>, note: string): seq<string> {
    (if isPk then ["pk"] else [])
      + (if notNull then ["not null"] else [])
      + (if unique then ["unique"] else [])
      + (if dval.Some? then ["default: " + dval.value] else [])
      + (if note != "" then ["note: '" + DoubleQuotes(note) + "'"] else [])
  }

  /** The attributes of one column, given the primary-key column names. */
  function ColumnAttrs(c: Dict, pkCols: seq<Json>): Result<seq<string>> {
    var cname := Field(c, "name", JNull);
    var note :- RemarkText(Field(c, "remarks", JNull));
    Ok(AttrList(
      cname in pkCols && |pkCols| == 1,
      !Truthy(Field(c, "nullable", JBool(true))),
      Truthy(Field(c, "part-of-unique-index", JBool(false))) && cname !in pkCols,
      FormatDefault(Field(c, "default-value", JNull)),
      note))
  }

  /** `' [' + ', '.join(attrs) + ']' if attrs else ''` */
  function AttrSuffix(attrs: seq<string>): string {
    if attrs == [] then "" else " [" + Join(attrs, ", ") + "]"
  }

  /** One column line: two spaces, the name, the data type and the attribute list. */
  function ColumnLine(c: Dict, pkCols: seq<Json>, uuids: UuidMap): Result<string> {
    var ctype := ResolveDatatype(Field(c, "column-data-type", JNull), uuids);
    var attrs :- ColumnAttrs(c, pkCols);
    var name :- SanitizeIdentifier(Field(c, "name", JNull));
    Ok(ColumnText(name, PyStr(ctype), attrs))
  }

  /** `f"  {name} {ctype}{attr_str}"` */
  function ColumnText(name: string, ctype: string, attrs: seq<string>): string {
    "  " + name + " " + ctype + AttrSuffix(attrs)
  }

  /** The line of a column for a given primary key and uuid map: the function the loop of lines 86-104 applies. */
  function ColumnLineWith(pkCols: seq<Json>, uuids: UuidMap): Dict -> Result<string> {
    c => ColumnLine(c, pkCols, uuids)
  }

  /** Lines 86-104: a line per column, in column order, or the first exception. */
  function ColumnLines(cols: seq<Dict>, pkCols: seq<Json>, uuids: UuidMap): (r: Result<seq<string>>)
    ensures r.Ok? <==> forall i :: 0 <= i < |cols| ==> ColumnLine(cols[i], pkCols, uuids).Ok?
    ensures r.Ok? ==> |r.value| == |cols| && forall i :: 0 <= i < |cols| ==> r.value[i] == ColumnLine(cols[i], pkCols, uuids).value
  {
    AllOkMap(ColumnLineWith(pkCols, uuids), cols);
    AllOk(MapResults(ColumnLineWith(pkCols, uuids), cols))
  }

  /** The table's `Note:` line when its stripped remark is not empty. */
  function NoteLines(note: string): seq<string> {
    if note == "" then [] else ["  Note: '" + DoubleQuotes(note) + "'"]
  }

  // ---------------------------------------------------------------- indexes

  /** `[uuid_map[iid] for iid in ids if iid in uuid_map and uuid_map[iid].get('@class', '').endswith('MutableIndex')]` */
  function IndexEntries(ids: seq<Json>, uuids: UuidMap): (r: Result<seq<Dict>>)
    ensures r.Ok? ==> |r.value| <= |ids|
    decreases |ids|
  {
    if ids == [] then Ok([])
    else
      var init :- IndexEntries(ids[..|ids| - 1], uuids);
      var iid := ids[|ids| - 1];
      var present :- MapHas(uuids, iid);
      if !present then Ok(init)
      else
        var cls := Field(uuids[iid], "@class", JStr(""));
        if !cls.JStr? then Err(AttributeError)
        else if EndsWith(cls.s, "MutableIndex") then Ok(init + [uuids[iid]])
        else Ok(init)
  }

  /** Lines 115-121: the `(...) [pk]` line of a primary key with more than one column id. */
  function PkIndexLines(pk: Option<PrimaryKey>): Result<seq<string>> {
    if pk.None? then Ok([])
    else
      var n :- Len(pk.value.ids);
      if n <= 1 then Ok([])
      else
        var names :- SanitizeAll(pk.value.names);
        Ok(["  (" + Join(names, ", ") + ") [pk]"])
  }

  /** The column-id collection of an index. */
  function IndexColumnIds(idx: Dict): Json {
    Collection(Field(idx, "columns", JArr([])))
  }

  /** An index is emitted unless it is the primary key, is not unique, or has no columns. */
  predicate KeepsIndex(idx: Dict, pkId: Json) {
    && UuidOf(idx) != pkId
    && Truthy(Field(idx, "unique", JBool(false)))
    && Truthy(IndexColumnIds(idx))
  }

  /** One iteration of the loop over `index_entries`: its `(...) [unique]` line, or nothing. */
  function UniqueIndexLine(idx: Dict, pkId: Json, byId: ColumnIndex): Result<Option<string>> {
    if !KeepsIndex(idx, pkId) then Ok(None)
    else
      var ids :- Iter(IndexColumnIds(idx));
      var names :- ColumnNames(ids, byId);
      var list :- SanitizeAll(names);
      Ok(Some("  (" + Join(list, ", ") + ") [unique]"))
  }

  function UniqueIndexLines(entries: seq<Dict>, pkId: Json, byId: ColumnIndex): (r: Result<seq<string>>)
    ensures r.Ok? ==> |r.value| <= |entries|
    decreases |entries|
  {
    if entries == [] then Ok([])
    else
      var init :- UniqueIndexLines(entries[..|entries| - 1], pkId, byId);
      var line :- UniqueIndexLine(entries[|entries| - 1], pkId, byId);
      if line.Some? then Ok(init + [line.value]) else Ok(init)
  }

  /** The `indexes { }` block, present only when it has lines. */
  function IndexBlock(lines: seq<string>): seq<string> {
    if lines == [] then [] else ["  indexes {"] + lines + ["  }"]
  }

  // ---------------------------------------------------------------- foreign keys

  /** `fk.get(key, ['',''])[1] if isinstance(fk.get(key), list) else ''`; a short list raises `IndexError`. */
  function RuleName(fk: Dict, key: string): Result<Json> {
    var v := Field(fk, key, JNull);
    if !v.JArr? then Ok(JStr(""))
    else if |v.items| < 2 then Err(IndexError)
    else Ok(v.items[1])
  }

  /** The `delete: ...` and `update: ...` options of the rules that are set, delete first. */
  function RefOptions(deleteRule: Json, updateRule: Json): seq<string> {
    (if Truthy(deleteRule) then ["delete: " + PyStr(deleteRule)] else [])
      + (if Truthy(updateRule) then ["update: " + PyStr(updateRule)] else [])
  }

  /** `f" [{', '.join(opts)}]" if opts else ""` */
  function OptionSuffix(opts: seq<string>): string {
    if opts == [] then "" else " [" + Join(opts, ", ") + "]"
  }

  /** The name of the column a column-reference member names: `col_by_id.get(x, {}).get('name')`. */
  function RefColumnName(cr: Dict, key: string, byId: ColumnIndex): Result<Json> {
    var col :- MapGet(byId, Field(cr, key, JNull), []);
    Ok(Field(col, "name", JNull))
  }

  /** One column-reference pair of a foreign key: its `Ref:` line, or nothing when the pair is dropped. */
  function RefLine(cr: Json, fk: Dict, refTableName: Json, tableName: Json, byId: ColumnIndex): Result<Option<string>> {
    var crd :- AsDict(cr);
    var fkCol :- RefColumnName(crd, "foreign-key-column", byId);
    var pkCol :- RefColumnName(crd, "primary-key-column", byId);
    if !Truthy(fkCol) || !Truthy(pkCol) then Ok(None)
    else RefPair(fk, fkCol, pkCol, refTableName, tableName)
  }

  /** The options of a foreign key's `Ref:` lines: its delete rule, then its update rule. */
  function RefRules(fk: Dict): Result<seq<string>> {
    var deleteRule :- RuleName(fk, "delete-rule");
    var updateRule :- RuleName(fk, "update-rule");
    Ok(RefOptions(deleteRule, updateRule))
  }

  /** Lines 156-167 for a pair whose two column names are set: the rules, then the pair. */
  function RefPair(fk: Dict, fkCol: Json, pkCol: Json, refTableName: Json, tableName: Json): Result<Option<string>> {
    var opts :- RefRules(fk);
    RefChecked(refTableName, pkCol, tableName, fkCol, opts)
  }

  /** A pair that refers from a column of a table to the same column of the same table. */
  predicate SelfReference(refTableName: Json, pkCol: Json, tableName: Json, fkCol: Json) {
    refTableName == tableName && pkCol == fkCol
  }

  /** Lines 163-167: a self-referencing pair is dropped, any other one gets its `Ref:` line. */
  function RefChecked(refTableName: Json, pkCol: Json, tableName: Json, fkCol: Json, opts: seq<string>): Result<Option<string>> {
    if SelfReference(refTableName, pkCol, tableName, fkCol) then Ok(None)
    else RefTextOf(refTableName, pkCol, tableName, fkCol, opts)
  }

  /** The `Ref:` line of a pair kept: the referenced column, then the referencing one. */
  function RefTextOf(refTableName: Json, pkCol: Json, tableName: Json, fkCol: Json, opts: seq<string>): Result<Option<string>> {
    var left :- QualifiedName(refTableName, pkCol);
    var right :- QualifiedName(tableName, fkCol);
    Ok(Some(RefText(left, right, opts)))
  }

  /** `f"{sanitize_identifier(table)}.{sanitize_identifier(column)}"`, the table sanitized first. */
  function QualifiedName(table: Json, column: Json): Result<string> {
    var t :- SanitizeIdentifier(table);
    var c :- SanitizeIdentifier(column);
    Ok(t + "." + c)
  }

  /** `f"Ref: {t1}.{c1} > {t2}.{c2}{opt_str}"` with the two qualified names already joined. */
  function RefText(left: string, right: string, opts: seq<string>): string {
    "Ref: " + left + " > " + right + OptionSuffix(opts)
  }

  function RefLines(crs: seq<Json>, fk: Dict, refTableName: Json, tableName: Json, byId: ColumnIndex): (r: Result<seq<string>>)
    ensures r.Ok? ==> |r.value| <= |crs|
    decreases |crs|
  {
    if crs == [] then Ok([])
    else
      var init :- RefLines(crs[..|crs| - 1], fk, refTableName, tableName, byId);
      var line :- RefLine(crs[|crs| - 1], fk, refTableName, tableName, byId);
      if line.Some? then Ok(init + [line.value]) else Ok(init)
  }

  /** The foreign key an entry denotes: an inline object, or the object its uuid names. */
  function ForeignKeyObject(entry: Json, uuids: UuidMap): Result<Option<Dict>> {
    if entry.JObj? then Ok(Some(entry.fields)) else MapFind(uuids, entry)
  }

  /** The referenced table: a uuid string looked up (`{}` when absent), otherwise the member itself (`{}` when missing). */
  function ReferencedTable(fk: Dict, uuids: UuidMap): Json {
    var rt := Field(fk, "referenced-table", JNull);
    if rt.JStr? then (if rt in uuids then JObj(uuids[rt]) else JObj([]))
    else Field(fk, "referenced-table", JObj([]))
  }

  /** `name or full-name` of a table object. */
  function TableName(t: Dict): Json {
    Or(Field(t, "name", JNull), Field(t, "full-name", JNull))
  }

  /** One iteration of the loop over `fk_entries`: the `Ref:` lines of one foreign key. */
  function ForeignKeyRefs(entry: Json, tableName: Json, uuids: UuidMap, byId: ColumnIndex): Result<seq<string>> {
    var fk :- ForeignKeyObject(entry, uuids);
    if IsFalsyKey(fk) then Ok([])
    else ForeignKeyLines(fk.value, tableName, uuids, byId)
  }

  /** `not fk or not isinstance(fk, dict)`: no foreign key, or an empty one. */
  predicate IsFalsyKey(fk: Option<Dict>) {
    fk.None? || fk.value == []
  }

  /** Lines 148-167 for a foreign key that is present: its referenced table's name and its column references. */
  function ForeignKeyLines(fk: Dict, tableName: Json, uuids: UuidMap, byId: ColumnIndex): Result<seq<string>> {
    var refTable :- AsDict(ReferencedTable(fk, uuids));
    var crs :- Iter(Collection(Field(fk, "column-references", JArr([]))));
    RefLines(crs, fk, TableName(refTable), tableName, byId)
  }

  function AllForeignKeyRefs(entries: seq<Json>, tableName: Json, uuids: UuidMap, byId: ColumnIndex): Result<seq<string>>
    decreases |entries|
  {
    if entries == [] then Ok([])
    else
      var init :- AllForeignKeyRefs(entries[..|entries| - 1], tableName, uuids, byId);
      var refs :- ForeignKeyRefs(entries[|entries| - 1], tableName, uuids, byId);
      Ok(init + refs)
  }

  // ---------------------------------------------------------------- tables and the document

  /** What one table contributes: its block of lines and its `Ref:` lines. */
  datatype Emitted = Emitted(lines: seq<string>, refs: seq<string>)

  /** The column objects of a table, sorted: lines 74-76. */
  function TableColumns(t: Dict, byId: ColumnIndex): Result<seq<Dict>> {
    var colIds :- Iter(Collection(Field(t, "columns", JArr([]))));
    var found :- FindColumns(colIds, byId);
    SortColumns(found)
  }

  /** The lines of the `indexes` block: the composite primary key, then the unique indexes (lines 111-133). */
  function TableIndexLines(t: Dict, pk: Option<PrimaryKey>, uuids: UuidMap, byId: ColumnIndex): Result<seq<string>> {
    var idxIds :- Iter(Collection(Field(t, "table-constraints", JArr([]))));
    var entries :- IndexEntries(idxIds, uuids);
    var pkLines :- PkIndexLines(pk);
    var uniqueLines :- UniqueIndexLines(entries, Field(t, "primary-key", JNull), byId);
    Ok(pkLines + uniqueLines)
  }

  /** The `Ref:` lines of all foreign keys of a table (lines 143-167). */
  function TableRefs(t: Dict, tableName: Json, uuids: UuidMap, byId: ColumnIndex): Result<seq<string>> {
    var fkEntries :- Iter(Collection(Field(t, "foreign-keys", JArr([]))));
    AllForeignKeyRefs(fkEntries, tableName, uuids, byId)
  }

  /** The block of one table: header, column lines, note, indexes, closing brace. */
  function TableLines(header: string, colLines: seq<string>, note: string, indexLines: seq<string>): seq<string> {
    ["Table " + header + " {"] + colLines + NoteLines(note) + IndexBlock(indexLines) + ["}\n"]
  }

  /** One iteration of the loop over the tables (lines 71-167). */
  function TableBlock(t: Dict, uuids: UuidMap, byId: ColumnIndex): Result<Emitted> {
    var tableNote :- RemarkText(Field(t, "remarks", JNull));
    var cols :- TableColumns(t, byId);
    var pk :- PrimaryKeyOf(Field(t, "primary-key", JNull), uuids, byId);
    TableOutput(t, tableNote, cols, pk, uuids, byId)
  }

  /** Lines 85-167 of one table, once its note, sorted columns and primary key are known. */
  function TableOutput(t: Dict, tableNote: string, cols: seq<Dict>, pk: Option<PrimaryKey>, uuids: UuidMap, byId: ColumnIndex): Result<Emitted> {
    var tableName := TableName(t);
    var header :- SanitizeIdentifier(tableName);
    var colLines :- ColumnLines(cols, if pk.Some? then pk.value.names else [], uuids);
    var indexLines :- TableIndexLines(t, pk, uuids, byId);
    var refs :- TableRefs(t, tableName, uuids, byId);
    Ok(Emitted(TableLines(header, colLines, tableNote, indexLines), refs))
  }

  function EmitTables(tables: seq<Dict>, uuids: UuidMap, byId: ColumnIndex): Result<Emitted>
    decreases |tables|
  {
    if tables == [] then Ok(Emitted([], []))
    else
      var init :- EmitTables(tables[..|tables| - 1], uuids, byId);
      var e :- TableBlock(tables[|tables| - 1], uuids, byId);
      Ok(Emitted(init.lines + e.lines, init.refs + e.refs))
  }

  /** `convert_to_dbml` on the decoded document: all table blocks, then all `Ref:` lines, joined by newlines. */
  function Convert(data: Json): Result<string> {
    var uuids :- UuidMapOf(data);
    ConvertDocument(data, uuids)
  }

  /** Lines 61-169 once the uuid map is built: the tables of the catalog, the column index, the output. */
  function ConvertDocument(data: Json, uuids: UuidMap): Result<string> {
    var d :- AsDict(data);
    var catalog :- AsDict(Field(d, "catalog", JObj([])));
    var entries :- Iter(Collection(Field(catalog, "tables", JArr([]))));
    var tables :- TableObjects(entries, uuids);
    var columns :- Iter(Collection(Field(d, "all-table-columns", JArr([]))));
    var byId :- ColumnIndexOf(columns);
    Render(tables, uuids, byId)
  }

  /** All table blocks, then all `Ref:` lines, joined by newlines. */
  function Render(tables: seq<Dict>, uuids: UuidMap, byId: ColumnIndex): Result<string> {
    var e :- EmitTables(tables, uuids, byId);
    Ok(Join(e.lines + e.refs, "\n"))
  }
}
