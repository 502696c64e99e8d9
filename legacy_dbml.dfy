/**
 * The older converter, schemacrawler/convert_schemacrawler_to_dbml.py, as
 * functions of the decoded JSON document: the `@uuid` index, identifier
 * quoting by a blacklist of characters, the column type with its size suffix,
 * the SQL-aware default, and `to_dbml`, which groups the columns of
 * `all-table-columns` by the `schema.table` prefix of their `full-name` and
 * emits one table block per group in sorted order. Module LegacyDbmlConvert
 * runs the same steps as loops over mutable state and is proved to agree.
 */
module LegacyDbml {
  import opened Text
  import opened JsonValue
  import JsonDbml

  // ---------------------------------------------------------------- index_by_uuid

  /** `index`: objects by their `@uuid`. Every key is a string (see IndexWrites). */
  type UuidIndex = map<Json, Dict>

  /** The writes `index[uid] = o` made for these objects, in order: one per object whose `@uuid` is a string. */
  function IndexWrites(ds: seq<Dict>): (ws: seq<(Json, Dict)>)
    ensures |ws| <= |ds|
    ensures forall i :: 0 <= i < |ws| ==> ws[i].0.JStr? && JsonDbml.UuidOf(ws[i].1) == ws[i].0 && ws[i].1 in ds
    decreases |ds|
  {
    if ds == [] then []
    else
      var init := IndexWrites(ds[..|ds| - 1]);
      var d := ds[|ds| - 1];
      if JsonDbml.UuidOf(d).JStr? then init + [(JsonDbml.UuidOf(d), d)] else init
  }

  lemma {:induction false} IndexWritesAppend(a: seq<Dict>, b: seq<Dict>)
    ensures IndexWrites(a + b) == IndexWrites(a) + IndexWrites(b)
    decreases |b|
  {
    if b == [] {
      assert a + b == a;
    } else {
      var b' := b[..|b| - 1];
      assert (a + b)[..|a + b| - 1] == a + b';
      IndexWritesAppend(a, b');
    }
  }

  /** Every object with a string `@uuid` among `ds` gives a write. */
  lemma {:induction false} IndexWritesCover(ds: seq<Dict>, d: Dict)
    requires d in ds && JsonDbml.UuidOf(d).JStr?
    ensures (JsonDbml.UuidOf(d), d) in IndexWrites(ds)
    decreases |ds|
  {
    if ds[|ds| - 1] != d {
      IndexWritesCover(ds[..|ds| - 1], d);
    }
  }

  /** Lines 19-33: `index_by_uuid(obj)`, the index after walking the whole tree. */
  function IndexByUuid(obj: Json): UuidIndex {
    Record(map[], IndexWrites(Objects(obj)))
  }

  // ---------------------------------------------------------------- safe_ident

  /** The characters that make `safe_ident` quote a name: space, `-`, `.`, `:`, `/`, backslash, backtick and both quotes. */
  const BadChars: string := " -.:/\\`\"'"

  /** `c in name` for a one-character `c`: a character of a str, an item of a list, a key of a dict. */
  predicate Mentions(name: Json, c: char) {
    match name
    case JStr(s) => c in s
    case JArr(xs) => JStr([c]) in xs
    case JObj(fs) => exists i :: 0 <= i < |fs| && fs[i].0 == [c]
    case _ => false
  }

  /** `any(c in name for c in bad)` */
  predicate MentionsBad(name: Json) {
    exists i :: 0 <= i < |BadChars| && Mentions(name, BadChars[i])
  }

  /** `safe_ident` of a str. */
  function IdentOf(s: string): string {
    if MentionsBad(JStr(s)) then "\"" + s + "\"" else s
  }

  /**
   * Lines 36-43: `safe_ident(name)`. `None` gives `""`; a value `in` cannot
   * search (an int or a bool) raises `TypeError`; a list or a dict is searched
   * for the characters as items or keys and rendered with `str()`.
   */
  function SafeIdent(name: Json): Result<string> {
    match name
    case JNull => Ok("\"\"")
    case JStr(s) => Ok(IdentOf(s))
    case JBool(_) => Err(TypeError)
    case JInt(_) => Err(TypeError)
    case _ => Ok(if MentionsBad(name) then "\"" + PyStr(name) + "\"" else PyStr(name))
  }

  // ---------------------------------------------------------------- resolve_db_type

  /** `t.get('database-specific-type-name') or t.get('local-type-name') or t.get('standard-type-name') or 'text'` */
  function TypeNameOf(t: Dict): Json {
    Or(Field(t, "database-specific-type-name", JNull), Or(Field(t, "local-type-name", JNull), Or(Field(t, "standard-type-name", JNull), JStr("text"))))
  }

  /**
   * Lines 48-57: the base type: `"text"` unless the column's `type` is a truthy
   * uuid of the index; `TypeError` when that value is a list or a dict, which
   * cannot be looked up.
   */
  function BaseType(col: Dict, index: UuidIndex): Result<Json> {
    var typeUuid := Field(col, "type", JNull);
    if !Truthy(typeUuid) then Ok(JStr("text"))
    else
      var t :- MapFind(index, typeUuid);
      Ok(if t.Some? then TypeNameOf(t.value) else JStr("text"))
  }

  /** `isinstance(size, int) and size > 0`; a Python bool is an int, so `True` passes. */
  predicate IsPositiveInt(size: Json) {
    (size.JInt? && size.n > 0) || size == JBool(true)
  }

  /** Lines 59-65: the stripped `width` when it is a str starting with `(`, else `(size)` for a positive int. */
  function SizeSuffix(width: Json, size: Json): string {
    if width.JStr? && StartsWith(Strip(width.s), "(") then Strip(width.s)
    else if IsPositiveInt(size) then "(" + PyStr(size) + ")"
    else ""
  }

  /** Lines 46-67: `resolve_db_type(col_obj, uuid_index)`. */
  function ResolveDbType(col: Dict, index: UuidIndex): Result<string> {
    var base :- BaseType(col, index);
    Ok(PyStr(base) + SizeSuffix(Field(col, "width", JNull), Field(col, "size", JNull)))
  }

  // ---------------------------------------------------------------- sanitize_default

  /** The prefixes, compared with the lower-cased value, that mark a SQL expression. */
  const SqlPrefixes: seq<string> := ["nextval", "uuid_", "now", "current_", "gen_random_uuid"]

  /** Line 82: a parenthesis, `::`, or a SQL function prefix. */
  predicate IsSqlExpression(dv: string) {
    || '(' in dv || ')' in dv || Contains(dv, "::")
    || exists i :: 0 <= i < |SqlPrefixes| && StartsWith(AsciiLower(dv), SqlPrefixes[i])
  }

  /** Line 87: a space, a colon or a quote of either kind. */
  predicate NeedsQuotes(dv: string) {
    ' ' in dv || ':' in dv || '\'' in dv || '"' in dv
  }

  /** `f'"{dv}"'` after escaping every `"` as `\"`. */
  function QuoteDefault(dv: string): string {
    "\"" + EscapeDoubleQuotes(dv) + "\""
  }

  /** Lines 70-91: `sanitize_default(default_value)`; `None` for a falsy value. */
  function SanitizeDefault(v: Json): Option<string> {
    if !Truthy(v) then None
    else
      var dv := Strip(PyStr(v));
      if IsSqlExpression(dv) then Some(QuoteDefault(dv))
      else if NeedsQuotes(dv) then Some(QuoteDefault(dv))
      else Some(dv)
  }

  // ---------------------------------------------------------------- to_dbml: collecting the columns

  /** `(schema, table)`, the key of `tables`. */
  type TableKey = (string, string)

  /** Lines 108-118: `col_entry`. */
  datatype ColumnEntry = ColumnEntry(
    name: Json,
    typ: string,
    nullable: Json,
    default: Option<string>,
    pk: Json,
    unique: Json,
    auto: Json,
    generated: Json,
    remarks: Json)

  /** Lines 96-97: the column list, item 1 of the `all-table-columns` list when it has two items, else `[]`. */
  function ColumnsValue(d: Dict): Json {
    var block := Field(d, "all-table-columns", JArr([]));
    if block.JArr? && |block.items| >= 2 then block.items[1] else JArr([])
  }

  /** `full.count(".")`: characters of a str, items of a list; `AttributeError` for anything else. */
  function DotCount(full: Json): Result<nat> {
    match full
    case JStr(s) => Ok(CountChar(s, '.'))
    case JArr(xs) => Ok(multiset(xs)[JStr(".")])
    case _ => Err(AttributeError)
  }

  /** Line 106: `full.split(".", 2)` of a name with at least two dots: the text before the first dot, between the first two, and after the second. */
  function SplitFullName(s: string): (r: (string, string, string))
    requires CountChar(s, '.') >= 2
    ensures r.0 + "." + r.1 + "." + r.2 == s
    ensures '.' !in r.0 && '.' !in r.1
  {
    CountCharOccurs(s, '.');
    var (schema, rest) := SplitFirst(s, '.');
    CountCharOccurs(rest, '.');
    var (table, colname) := SplitFirst(rest, '.');
    (schema, table, colname)
  }

  /** Lines 108-118: the entry of a kept column; only the type can fail. */
  function EntryOf(col: Dict, colname: string, index: UuidIndex): Result<ColumnEntry> {
    var typ :- ResolveDbType(col, index);
    Ok(ColumnEntry(
      Or(Field(col, "name", JNull), JStr(colname)),
      typ,
      Field(col, "nullable", JBool(true)),
      SanitizeDefault(Field(col, "default-value", JNull)),
      Field(col, "part-of-primary-key", JBool(false)),
      Field(col, "part-of-unique-index", JBool(false)),
      Field(col, "auto-incremented", JBool(false)),
      Field(col, "generated", JBool(false)),
      Or(Field(col, "remarks", JNull), JStr(""))))
  }

  /** Lines 106-118 for a `full-name` with at least two dots. */
  function KeyedEntry(col: Dict, full: string, index: UuidIndex): Result<Option<(TableKey, ColumnEntry)>>
    requires CountChar(full, '.') >= 2
  {
    var (schema, table, colname) := SplitFullName(full);
    var entry :- EntryOf(col, colname, index);
    Ok(Some(((schema, table), entry)))
  }

  /** Lines 103-106: a falsy `full-name` or one with fewer than two dots is skipped; a list with two is not a str and cannot be split. */
  function FullNameStep(col: Dict, index: UuidIndex): Result<Option<(TableKey, ColumnEntry)>> {
    var full := Field(col, "full-name", JNull);
    if !Truthy(full) then Ok(None)
    else
      var dots :- DotCount(full);
      if dots < 2 then Ok(None)
      else if !full.JStr? then Err(AttributeError)
      else KeyedEntry(col, full.s, index)
  }

  /** Lines 101-118: one pass of the collecting loop: skipped (`None`), or the key and the entry to append. */
  function ColumnStep(col: Json, index: UuidIndex): Result<Option<(TableKey, ColumnEntry)>> {
    if col.JObj? then FullNameStep(col.fields, index) else Ok(None)
  }

  /** The `(key, entry)` pairs the collecting loop appends, in column order, or the first exception. */
  function Kept(columns: seq<Json>, index: UuidIndex): Result<seq<(TableKey, ColumnEntry)>>
    decreases |columns|
  {
    if columns == [] then Ok([])
    else
      var init :- Kept(columns[..|columns| - 1], index);
      var step :- ColumnStep(columns[|columns| - 1], index);
      Ok(if step.Some? then init + [step.value] else init)
  }

  /**
   * The `tables` defaultdict: its keys in insertion order and its lists. A
   * valid grouping lists each key of the map once.
   */
  datatype Grouping = Grouping(order: seq<TableKey>, tables: map<TableKey, seq<ColumnEntry>>)

  ghost predicate ValidGrouping(g: Grouping) {
    && (forall k :: k in g.tables <==> k in g.order)
    && (forall i, j :: 0 <= i < j < |g.order| ==> g.order[i] != g.order[j])
  }

  /** Line 119: `tables[key].append(entry)`; a new key is inserted after the others. */
  function AddEntry(g: Grouping, key: TableKey, entry: ColumnEntry): (r: Grouping)
    requires ValidGrouping(g)
    ensures ValidGrouping(r)
  {
    if key in g.tables then Grouping(g.order, g.tables[key := g.tables[key] + [entry]])
    else Grouping(g.order + [key], g.tables[key := [entry]])
  }

  /** `tables` after appending every kept pair in order. */
  function GroupAll(kept: seq<(TableKey, ColumnEntry)>): (g: Grouping)
    ensures ValidGrouping(g)
    decreases |kept|
  {
    if kept == [] then Grouping([], map[])
    else AddEntry(GroupAll(kept[..|kept| - 1]), kept[|kept| - 1].0, kept[|kept| - 1].1)
  }

  /** Lines 99-119: the grouping the collecting loop builds, or its first exception. */
  function Collect(columns: seq<Json>, index: UuidIndex): (r: Result<Grouping>)
    ensures r.Ok? ==> ValidGrouping(r.value)
  {
    var kept :- Kept(columns, index);
    Ok(GroupAll(kept))
  }

  // ---------------------------------------------------------------- to_dbml: sorting

  /** Python's `<` on `(schema, table)` tuples. */
  predicate KeyLess(a: TableKey, b: TableKey) {
    Less(a.0, b.0) || (a.0 == b.0 && Less(a.1, b.1))
  }

  /** Places `k` before the first key it is less than. */
  function InsertKey(k: TableKey, s: seq<TableKey>): (r: seq<TableKey>)
    ensures multiset(r) == multiset(s) + multiset{k}
  {
    if s == [] then [k]
    else if KeyLess(k, s[0]) then [k] + s
    else
      assert s == [s[0]] + s[1..];
      [s[0]] + InsertKey(k, s[1..])
  }

  /** Line 122: the keys of `sorted(tables.items())`. */
  function SortKeys(ks: seq<TableKey>): (r: seq<TableKey>)
    ensures multiset(r) == multiset(ks)
  {
    if ks == [] then []
    else
      assert ks == [ks[0]] + ks[1..];
      InsertKey(ks[0], SortKeys(ks[1..]))
  }

  /** Line 122: `sorted(tables.items())`. */
  function SortedItems(g: Grouping): (items: seq<(TableKey, seq<ColumnEntry>)>)
    requires ValidGrouping(g)
    ensures |items| == |g.order|
  {
    var keys := SortKeys(g.order);
    assert forall i :: 0 <= i < |keys| ==> keys[i] in multiset(g.order);
    seq(|keys|, i requires 0 <= i < |keys| => (keys[i], g.tables[keys[i]]))
  }

  // ---------------------------------------------------------------- to_dbml: emitting

  /** Line 135: a default that is `None`, `""` or `"null"` is left out. */
  predicate ShowsDefault(d: Option<string>) {
    d.Some? && d.value != "" && d.value != "null"
  }

  /** Lines 126-133: the keyword attributes, in the order `pk`, `unique`, `increment`, `not null`, from the flags that decide each. */
  function KeywordAttrs(pk: bool, unique: bool, increment: bool, notNull: bool): seq<string> {
    (if pk then ["pk"] else [])
    + (if unique then ["unique"] else [])
    + (if increment then ["increment"] else [])
    + (if notNull then ["not null"] else [])
  }

  /** Lines 134-136: the `default: ` attribute, when the default is shown. */
  function DefaultAttr(default: Option<string>): seq<string> {
    if ShowsDefault(default) then ["default: " + default.value] else []
  }

  /** Lines 126-136: `attrs`, the keywords and then the default. */
  function LegacyAttrs(c: ColumnEntry): seq<string> {
    KeywordAttrs(Truthy(c.pk), Truthy(c.unique), Truthy(c.auto), !Truthy(c.nullable)) + DefaultAttr(c.default)
  }

  /** Lines 138-140: `" // "` and the remarks with `"` escaped; `AttributeError` for truthy remarks that are not a str. */
  function NoteOf(remarks: Json): Result<string> {
    if !Truthy(remarks) then Ok("")
    else if remarks.JStr? then Ok(" // " + EscapeDoubleQuotes(remarks.s))
    else Err(AttributeError)
  }

  /** Lines 125-141: one column line: the note first, then the quoted name. */
  function EntryLine(c: ColumnEntry): Result<string> {
    var note :- NoteOf(c.remarks);
    var name :- SafeIdent(c.name);
    Ok("  " + name + " " + c.typ + JsonDbml.AttrSuffix(LegacyAttrs(c)) + note)
  }

  /** The lines of a table's columns, in order, or the first exception. */
  function EntryLines(cols: seq<ColumnEntry>): Result<seq<string>> {
    AllOk(MapResults(EntryLine, cols))
  }

  /** Lines 123-124: `Table {safe_ident(f"{schema}.{table}")} {` */
  function Header(k: TableKey): string {
    "Table " + IdentOf(k.0 + "." + k.1) + " {"
  }

  /** Lines 123-142: a table block: the header, its column lines and `}` followed by an empty line. */
  function TableLines(k: TableKey, cols: seq<ColumnEntry>): Result<seq<string>> {
    var body :- EntryLines(cols);
    Ok([Header(k)] + body + ["}\n"])
  }

  /** The block of one `(key, cols)` item. */
  function ItemLines(item: (TableKey, seq<ColumnEntry>)): Result<seq<string>> {
    TableLines(item.0, item.1)
  }

  /** The blocks one after the other. */
  function Concat(blocks: seq<seq<string>>): seq<string>
    decreases |blocks|
  {
    if blocks == [] then [] else Concat(blocks[..|blocks| - 1]) + blocks[|blocks| - 1]
  }

  /** Lines 121-142: `lines`, the blocks of the sorted tables one after the other. */
  function EmitItems(items: seq<(TableKey, seq<ColumnEntry>)>): Result<seq<string>> {
    var blocks :- AllOk(MapResults(ItemLines, items));
    Ok(Concat(blocks))
  }

  /** Lines 99-144 once the column list is known. */
  function Render(columns: seq<Json>, index: UuidIndex): Result<string> {
    var g :- Collect(columns, index);
    var lines :- EmitItems(SortedItems(g));
    Ok(Join(lines, "\n"))
  }

  /**
   * Lines 94-144: `to_dbml(input_json)`. The document must be a dict
   * (`AttributeError` otherwise) and its column list iterable (`TypeError`
   * otherwise).
   */
  function ToDbml(input: Json): Result<string> {
    var index := IndexByUuid(input);
    var d :- AsDict(input);
    var columns :- Iter(ColumnsValue(d));
    Render(columns, index)
  }
}
