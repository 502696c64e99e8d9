/**
 * What schemacrawler/convert_schemacrawler_to_dbml.py promises about its
 * output, proved about the functions of module LegacyDbml.
 */
module LegacyDbmlProperties {
  import opened Text
  import opened JsonValue
  import JsonDbml
  import opened LegacyDbml
  import JsonDbmlProperties

  // ---------------------------------------------------------------- index_by_uuid

  /** Each value written is one of the objects, under the `@uuid` it carries, and that uuid is a string. */
  lemma {:induction false} IndexValues(ds: seq<Dict>)
    ensures var index := Record(map[], IndexWrites(ds));
            forall k :: k in index ==> k.JStr? && JsonDbml.UuidOf(index[k]) == k && index[k] in ds
    decreases |ds|
  {
    if ds != [] {
      var init := ds[..|ds| - 1];
      var d := ds[|ds| - 1];
      IndexValues(init);
      assert forall x :: x in init ==> x in ds;
      if JsonDbml.UuidOf(d).JStr? {
        RecordSnoc(map[], IndexWrites(init), (JsonDbml.UuidOf(d), d));
      }
    }
  }

  /** The index holds only string keys, each mapped to a visited object whose `@uuid` is that key. */
  lemma IndexKeysAreUuids(obj: Json)
    ensures forall k :: k in IndexByUuid(obj) ==>
      k.JStr? && JsonDbml.UuidOf(IndexByUuid(obj)[k]) == k && IndexByUuid(obj)[k] in Objects(obj)
  {
    IndexValues(Objects(obj));
  }

  /** Every visited object whose `@uuid` is a string is indexed under it. */
  lemma IndexCovers(obj: Json, d: Dict)
    requires d in Objects(obj) && JsonDbml.UuidOf(d).JStr?
    ensures JsonDbml.UuidOf(d) in IndexByUuid(obj)
  {
    var ws := IndexWrites(Objects(obj));
    IndexWritesCover(Objects(obj), d);
    var i :| 0 <= i < |ws| && ws[i] == (JsonDbml.UuidOf(d), d);
    RecordKeys(map[], ws);
  }

  /** The walk descends into every member value: an object nested anywhere under a visited object is indexed too. */
  lemma IndexCoversNested(obj: Json, d: Dict, k: nat, e: Dict)
    requires d in Objects(obj) && k < |d| && e in Objects(d[k].1)
    requires JsonDbml.UuidOf(e).JStr?
    ensures JsonDbml.UuidOf(e) in IndexByUuid(obj)
  {
    ObjectsClosed(obj, d, k, e);
    IndexCovers(obj, e);
  }

  /** Last write wins: an object that no later object shares its uuid with is what the index holds. */
  lemma {:induction false} IndexWritesLastWins(ds: seq<Dict>, i: nat)
    requires i < |ds| && JsonDbml.UuidOf(ds[i]).JStr?
    requires forall j :: i < j < |ds| ==> JsonDbml.UuidOf(ds[j]) != JsonDbml.UuidOf(ds[i])
    ensures var index := Record(map[], IndexWrites(ds));
            JsonDbml.UuidOf(ds[i]) in index && index[JsonDbml.UuidOf(ds[i])] == ds[i]
    decreases |ds|
  {
    var n := |ds| - 1;
    var init := ds[..n];
    var d := ds[n];
    if JsonDbml.UuidOf(d).JStr? {
      RecordSnoc(map[], IndexWrites(init), (JsonDbml.UuidOf(d), d));
    }
    if i < n {
      assert forall j :: i < j < |init| ==> init[j] == ds[j];
      IndexWritesLastWins(init, i);
    }
  }

  /** A uuid shared by several objects maps to the one the walk visits last. */
  lemma IndexLastWins(obj: Json, i: nat)
    requires i < |Objects(obj)| && JsonDbml.UuidOf(Objects(obj)[i]).JStr?
    requires forall j :: i < j < |Objects(obj)| ==> JsonDbml.UuidOf(Objects(obj)[j]) != JsonDbml.UuidOf(Objects(obj)[i])
    ensures JsonDbml.UuidOf(Objects(obj)[i]) in IndexByUuid(obj)
    ensures IndexByUuid(obj)[JsonDbml.UuidOf(Objects(obj)[i])] == Objects(obj)[i]
  {
    IndexWritesLastWins(Objects(obj), i);
  }

  // ---------------------------------------------------------------- safe_ident

  lemma MentionsBadStr(s: string)
    ensures MentionsBad(JStr(s)) <==> exists j :: 0 <= j < |s| && s[j] in BadChars
  {
    if MentionsBad(JStr(s)) {
      var i :| 0 <= i < |BadChars| && Mentions(JStr(s), BadChars[i]);
      var j :| 0 <= j < |s| && s[j] == BadChars[i];
      assert s[j] in BadChars;
    }
    if exists j :: 0 <= j < |s| && s[j] in BadChars {
      var j :| 0 <= j < |s| && s[j] in BadChars;
      var i :| 0 <= i < |BadChars| && BadChars[i] == s[j];
      assert Mentions(JStr(s), BadChars[i]);
    }
  }

  /** A str comes back unchanged exactly when none of its characters is blacklisted; otherwise it is double-quoted. */
  lemma SafeIdentIff(s: string)
    ensures SafeIdent(JStr(s)) == Ok(s) <==> forall j :: 0 <= j < |s| ==> s[j] !in BadChars
    ensures SafeIdent(JStr(s)) != Ok(s) ==> SafeIdent(JStr(s)) == Ok("\"" + s + "\"")
  {
    MentionsBadStr(s);
    if MentionsBad(JStr(s)) {
      assert |"\"" + s + "\""| != |s|;
    }
  }

  /** `None` gives `""`, and only an int or a bool, which `in` cannot search, raises. */
  lemma SafeIdentOtherValues(name: Json)
    ensures name == JNull ==> SafeIdent(name) == Ok("\"\"")
    ensures SafeIdent(name).Err? <==> name.JInt? || name.JBool?
    ensures SafeIdent(name).Err? ==> SafeIdent(name).error == TypeError
  {
  }

  /** A table name always holds the `.` between schema and table, so the header always quotes it. */
  lemma HeaderAlwaysQuoted(k: TableKey)
    ensures Header(k) == "Table \"" + k.0 + "." + k.1 + "\" {"
  {
    var t := k.0 + "." + k.1;
    assert t[|k.0|] == '.' && '.' in BadChars;
    MentionsBadStr(t);
  }

  // ---------------------------------------------------------------- resolve_db_type

  /** The type names `resolve_db_type` tries on the resolved object, in order. */
  function TypeCandidates(t: Dict): seq<Json> {
    [Field(t, "database-specific-type-name", JNull), Field(t, "local-type-name", JNull), Field(t, "standard-type-name", JNull)]
  }

  /**
   * The base type is `"text"` unless `type` is a uuid the index holds; then it
   * is the first true name of the resolved object, or `"text"`. Only a list or
   * a dict as `type` raises, since it cannot be looked up.
   */
  lemma BaseTypePriority(col: Dict, index: UuidIndex)
    ensures var u := Field(col, "type", JNull);
            && (BaseType(col, index).Err? <==> Truthy(u) && !Hashable(u))
            && (!Truthy(u) || (Hashable(u) && u !in index) ==> BaseType(col, index) == Ok(JStr("text")))
            && (Truthy(u) && Hashable(u) && u in index ==>
                  BaseType(col, index) == Ok(FirstTruthy(TypeCandidates(index[u]), JStr("text"))))
  {
    var u := Field(col, "type", JNull);
    if Truthy(u) && Hashable(u) && u in index {
      var t := index[u];
      var cs := TypeCandidates(t);
      var v := JStr("text");
      assert cs[1..] == [cs[1], cs[2]] && cs[1..][1..] == [cs[2]] && cs[1..][1..][1..] == [];
      assert FirstTruthy(cs[1..][1..], v) == Or(cs[2], v);
      assert FirstTruthy(cs[1..], v) == Or(cs[1], Or(cs[2], v));
      assert FirstTruthy(cs, v) == Or(cs[0], Or(cs[1], Or(cs[2], v)));
    }
  }

  /** `str()` of a true value is never empty. */
  lemma PyStrOfTruthy(j: Json)
    requires Truthy(j)
    ensures PyStr(j) != ""
  {
    if j.JInt? {
      if j.n < 0 {
        assert |IntToDecimal(j.n)| >= 1;
      } else {
        assert |NatToDecimal(j.n)| >= 1;
      }
    }
  }

  /** A resolved column type is never the empty text. */
  lemma ResolvedDbTypeNotEmpty(col: Dict, index: UuidIndex)
    requires ResolveDbType(col, index).Ok?
    ensures ResolveDbType(col, index).value != ""
  {
    var base := BaseType(col, index).value;
    var u := Field(col, "type", JNull);
    if Truthy(u) && MapFind(index, u).value.Some? {
      var t := MapFind(index, u).value.value;
      assert base == TypeNameOf(t);
    }
    assert Truthy(base);
    PyStrOfTruthy(base);
  }

  /**
   * The suffix is the stripped `width` when that starts with `(`; otherwise
   * `(size)` for a positive int `size` (a Python `True` counts, as `(True)`);
   * otherwise empty. It is empty or starts with `(`.
   */
  lemma SizeSuffixCases(width: Json, size: Json)
    ensures var fromWidth := width.JStr? && StartsWith(Strip(width.s), "(");
            && (fromWidth ==> SizeSuffix(width, size) == Strip(width.s))
            && (!fromWidth && size.JInt? && size.n > 0 ==> SizeSuffix(width, size) == "(" + NatToDecimal(size.n) + ")")
            && (!fromWidth && size == JBool(true) ==> SizeSuffix(width, size) == "(True)")
            && (!fromWidth && !IsPositiveInt(size) ==> SizeSuffix(width, size) == "")
            && (SizeSuffix(width, size) == "" || SizeSuffix(width, size)[0] == '(')
  {
    if width.JStr? && StartsWith(Strip(width.s), "(") {
      assert Strip(width.s)[..1] == "(";
    }
  }

  // ---------------------------------------------------------------- sanitize_default

  /** Exactly the false values give `None`. */
  lemma SanitizeDefaultNone(v: Json)
    ensures SanitizeDefault(v).None? <==> !Truthy(v)
  {
  }

  /**
   * A true value is stripped; a SQL expression or a value with a space, a
   * colon or a quote comes back between double quotes with its own double
   * quotes escaped (each follows a backslash), and the text between the outer
   * quotes, taken by position, unescapes to the stripped value; any other value
   * comes back bare and holds none of those characters. A backslash is left as
   * it is, so the closing quote can itself follow one: see
   * `SanitizeDefaultTrailingBackslash`.
   */
  lemma SanitizeDefaultQuoting(v: Json)
    requires Truthy(v)
    ensures var dv := Strip(PyStr(v));
            var r := SanitizeDefault(v).value;
            && (IsSqlExpression(dv) || NeedsQuotes(dv) ==>
                  && |r| >= 2 && r[0] == '"' && r[|r| - 1] == '"'
                  && QuotesEscaped(r[1..|r| - 1]) && UnescapeDoubleQuotes(r[1..|r| - 1]) == dv)
            && (!IsSqlExpression(dv) && !NeedsQuotes(dv) ==>
                  r == dv && forall i :: 0 <= i < |r| ==> r[i] !in " :'\"()")
  {
    var dv := Strip(PyStr(v));
    var r := SanitizeDefault(v).value;
    if IsSqlExpression(dv) || NeedsQuotes(dv) {
      assert r == QuoteDefault(dv);
      assert r[1..|r| - 1] == EscapeDoubleQuotes(dv);
      UnescapeAfterEscape(dv);
      EscapedQuotesPreceded(dv);
    }
  }

  /**
   * Lines 83 and 88 escape `"` but leave `\` as it is: a default that must be
   * quoted, holds no `"` and ends in a backslash comes out with `\"` as its last
   * two characters, so its closing quote follows a backslash and reads as an
   * escaped quote rather than as the end of the literal.
   */
  lemma SanitizeDefaultTrailingBackslash(dv: string)
    requires NeedsQuotes(dv) && '"' !in dv
    requires !IsSpace(dv[0]) && dv[|dv| - 1] == '\\'
    ensures SanitizeDefault(JStr(dv)) == Some("\"" + dv + "\"")
    ensures var r := SanitizeDefault(JStr(dv)).value; r[|r| - 2] == '\\' && r[|r| - 1] == '"'
  {
    assert Truthy(JStr(dv)) && PyStr(JStr(dv)) == dv;
    StripKeeps(dv);
    EscapeWithoutQuotes(dv);
    assert QuoteDefault(dv) == "\"" + dv + "\"";
    assert SanitizeDefault(JStr(dv)) == Some(QuoteDefault(dv));
  }

  /** `C:\`, quoted for its colon, is such a default: it comes out as `"C:\"`. */
  lemma BackslashPathExample(t: string)
    requires |t| == 3 && t[0] == 'C' && t[1] == ':' && t[2] == '\\'
    ensures NeedsQuotes(t) && '"' !in t && !IsSpace(t[0]) && t[|t| - 1] == '\\'
    ensures SanitizeDefault(JStr(t)) == Some("\"" + t + "\"")
  {
    SanitizeDefaultTrailingBackslash(t);
  }

  // ---------------------------------------------------------------- which columns are kept, and under which key

  /** A `full-name` that is false or has fewer than two dots. */
  predicate ShortFullName(full: Json) {
    !Truthy(full) || (DotCount(full).Ok? && DotCount(full).value < 2)
  }

  /** An item is skipped exactly when it is not a dict or its `full-name` is false or has fewer than two dots. */
  lemma ColumnStepSkipped(col: Json, index: UuidIndex)
    ensures ColumnStep(col, index) == Ok(None) <==> !col.JObj? || ShortFullName(Field(col.fields, "full-name", JNull))
  {
  }

  /**
   * A str `full-name` with two dots or more is keyed by its first two
   * dot-separated pieces; the rest of the name, dots included, is the column
   * name used when `name` is false. Only the type lookup can fail.
   */
  lemma ColumnStepKeyed(col: Dict, s: string, index: UuidIndex)
    requires Field(col, "full-name", JNull) == JStr(s) && CountChar(s, '.') >= 2
    ensures var parts := Split(s, '.');
            var step := ColumnStep(JObj(col), index);
            && |parts| >= 3
            && (step.Ok? <==> ResolveDbType(col, index).Ok?)
            && (step.Ok? ==>
                  && step.value.Some?
                  && step.value.value.0 == (parts[0], parts[1])
                  && step.value.value.1.name == Or(Field(col, "name", JNull), JStr(Join(parts[2..], ".")))
                  && step.value.value.1.typ == ResolveDbType(col, index).value)
  {
    var parts := Split(s, '.');
    var (schema, table, colname) := SplitFullName(s);
    CountCharOccurs(s, '.');
    var (first, rest) := SplitFirst(s, '.');
    SplitFirstIsFirstPiece(s, '.');
    CountCharOccurs(rest, '.');
    SplitFirstIsFirstPiece(rest, '.');
    assert schema == parts[0];
    assert Split(rest, '.') == parts[1..];
    assert table == parts[1];
    assert Split(colname, '.') == parts[2..];
    SplitJoin(colname, '.');
    assert Join(parts[2..], ".") == colname;
    assert ColumnStep(JObj(col), index) == FullNameStep(col, index);
    assert FullNameStep(col, index) == KeyedEntry(col, s, index);
  }

  /** A true `full-name` that has no `count` (not a str or a list), or a list with two `"."` items, which has no `split`, raises `AttributeError`. */
  lemma ColumnStepErrors(col: Dict, index: UuidIndex)
    ensures var full := Field(col, "full-name", JNull);
            && (Truthy(full) && !full.JStr? && !full.JArr? ==> ColumnStep(JObj(col), index) == Err(AttributeError))
            && (full.JArr? && multiset(full.items)[JStr(".")] >= 2 ==> ColumnStep(JObj(col), index) == Err(AttributeError))
  {
    var full := Field(col, "full-name", JNull);
    if full.JArr? && multiset(full.items)[JStr(".")] >= 2 {
      assert JStr(".") in full.items;
    }
  }

  // ---------------------------------------------------------------- grouping

  /** The entries kept under `k`, in column order. */
  function EntriesWith(kept: seq<(TableKey, ColumnEntry)>, k: TableKey): seq<ColumnEntry>
    decreases |kept|
  {
    if kept == [] then []
    else
      var init := EntriesWith(kept[..|kept| - 1], k);
      if kept[|kept| - 1].0 == k then init + [kept[|kept| - 1].1] else init
  }

  /** Each table holds, in input order, the entries kept under its key, and there is a table for every key kept. */
  lemma {:induction false} GroupAllTables(kept: seq<(TableKey, ColumnEntry)>, k: TableKey)
    ensures var tables := GroupAll(kept).tables;
            && (k in tables ==> tables[k] == EntriesWith(kept, k) && tables[k] != [])
            && (k !in tables ==> EntriesWith(kept, k) == [])
    decreases |kept|
  {
    if kept != [] {
      var n := |kept| - 1;
      var init := kept[..n];
      var g0 := GroupAll(init);
      var key := kept[n].0;
      var e := kept[n].1;
      GroupAllTables(init, k);
      assert GroupAll(kept) == AddEntry(g0, key, e);
      assert EntriesWith(kept, k) == if key == k then EntriesWith(init, k) + [e] else EntriesWith(init, k);
      if key == k {
        if k in g0.tables {
          assert GroupAll(kept).tables[k] == g0.tables[k] + [e];
        } else {
          assert GroupAll(kept).tables[k] == [e];
        }
      } else {
        assert k in GroupAll(kept).tables <==> k in g0.tables;
        assert k in g0.tables ==> GroupAll(kept).tables[k] == g0.tables[k];
      }
    }
  }

  /** Some entry is kept under `k` exactly when some kept pair has key `k`. */
  lemma {:induction false} EntriesWithKeys(kept: seq<(TableKey, ColumnEntry)>, k: TableKey)
    ensures EntriesWith(kept, k) != [] <==> exists i :: 0 <= i < |kept| && kept[i].0 == k
    decreases |kept|
  {
    if kept != [] {
      var n := |kept| - 1;
      var init := kept[..n];
      EntriesWithKeys(init, k);
      if exists i :: 0 <= i < |kept| && kept[i].0 == k {
        var i :| 0 <= i < |kept| && kept[i].0 == k;
        if i < n {
          assert init[i].0 == k;
        }
      }
      if exists i :: 0 <= i < n && init[i].0 == k {
        var i :| 0 <= i < n && init[i].0 == k;
        assert kept[i].0 == k;
      }
    }
  }

  // ---------------------------------------------------------------- sorting

  lemma KeyLessIrreflexive(a: TableKey)
    ensures !KeyLess(a, a)
  {
    LessIrreflexive(a.0);
    LessIrreflexive(a.1);
  }

  lemma KeyLessTransitive(a: TableKey, b: TableKey, c: TableKey)
    requires KeyLess(a, b) && KeyLess(b, c)
    ensures KeyLess(a, c)
  {
    if Less(a.0, b.0) && Less(b.0, c.0) {
      LessTransitive(a.0, b.0, c.0);
    } else if a.0 == b.0 && b.0 == c.0 {
      LessTransitive(a.1, b.1, c.1);
    }
  }

  lemma KeyLessTotal(a: TableKey, b: TableKey)
    requires a != b
    ensures KeyLess(a, b) || KeyLess(b, a)
  {
    if a.0 != b.0 {
      LessTotal(a.0, b.0);
    } else {
      LessTotal(a.1, b.1);
    }
  }

  /** Strictly increasing keys. */
  predicate Ascending(ks: seq<TableKey>) {
    forall i, j :: 0 <= i < j < |ks| ==> KeyLess(ks[i], ks[j])
  }

  predicate Distinct(ks: seq<TableKey>) {
    forall i, j :: 0 <= i < j < |ks| ==> ks[i] != ks[j]
  }

  /** A key below every key of an ascending sequence can go in front of it. */
  lemma AscendingCons(x: TableKey, t: seq<TableKey>)
    requires Ascending(t) && forall j :: 0 <= j < |t| ==> KeyLess(x, t[j])
    ensures Ascending([x] + t)
  {
    var r := [x] + t;
    forall i, j | 0 <= i < j < |r|
      ensures KeyLess(r[i], r[j])
    {
      if i > 0 {
        assert r[i] == t[i - 1] && r[j] == t[j - 1];
      }
    }
  }

  /** A key below the first of an ascending sequence is below all of it. */
  lemma BelowFirst(k: TableKey, s: seq<TableKey>)
    requires Ascending(s) && s != [] && KeyLess(k, s[0])
    ensures forall j :: 0 <= j < |s| ==> KeyLess(k, s[j])
  {
    forall j | 0 < j < |s|
      ensures KeyLess(k, s[j])
    {
      KeyLessTransitive(k, s[0], s[j]);
    }
  }

  lemma {:induction false} InsertKeyAscending(k: TableKey, s: seq<TableKey>)
    requires Ascending(s) && k !in s
    ensures Ascending(InsertKey(k, s))
    decreases |s|
  {
    if s != [] {
      if KeyLess(k, s[0]) {
        BelowFirst(k, s);
        AscendingCons(k, s);
      } else {
        assert k != s[0];
        KeyLessTotal(k, s[0]);
        var tail := s[1..];
        assert forall i :: 0 <= i < |tail| ==> tail[i] == s[i + 1];
        InsertKeyAscending(k, tail);
        var t := InsertKey(k, tail);
        forall j | 0 <= j < |t|
          ensures KeyLess(s[0], t[j])
        {
          assert t[j] in multiset(t);
          if t[j] != k {
            var m :| 0 <= m < |tail| && tail[m] == t[j];
          }
        }
        AscendingCons(s[0], t);
      }
    }
  }

  /** `sorted` of distinct keys gives them in strictly increasing order. */
  lemma {:induction false} SortKeysAscending(ks: seq<TableKey>)
    requires Distinct(ks)
    ensures Ascending(SortKeys(ks))
    decreases |ks|
  {
    if ks != [] {
      var tail := ks[1..];
      assert Distinct(tail) by {
        assert forall i :: 0 <= i < |tail| ==> tail[i] == ks[i + 1];
      }
      SortKeysAscending(tail);
      var t := SortKeys(tail);
      forall m | 0 <= m < |tail|
        ensures tail[m] != ks[0]
      {
        assert tail[m] == ks[m + 1];
      }
      assert ks[0] !in multiset(t);
      InsertKeyAscending(ks[0], t);
    }
  }

  /** The items are the sorted keys, each with its table. */
  lemma SortedItemsKeys(g: Grouping)
    requires ValidGrouping(g)
    ensures var items := SortedItems(g);
            var keys := SortKeys(g.order);
            && |items| == |keys|
            && forall i :: 0 <= i < |items| ==> items[i].0 == keys[i] && keys[i] in g.tables && items[i].1 == g.tables[keys[i]]
  {
    var keys := SortKeys(g.order);
    assert forall i :: 0 <= i < |keys| ==> keys[i] in multiset(g.order);
  }

  /** The sorted keys are the keys of `tables`, each once, in strictly increasing order. */
  lemma SortedKeysOrder(g: Grouping)
    requires ValidGrouping(g)
    ensures var keys := SortKeys(g.order);
            && Ascending(keys)
            && forall k :: k in g.tables <==> k in keys
  {
    var keys := SortKeys(g.order);
    assert Distinct(g.order);
    SortKeysAscending(g.order);
    assert forall k :: k in keys <==> k in multiset(g.order);
  }

  /**
   * Tables are emitted in strictly increasing `(schema, table)` order, each
   * table exactly once, each with the entries `tables` holds for it.
   */
  lemma SortedItemsOrder(g: Grouping)
    requires ValidGrouping(g)
    ensures var items := SortedItems(g);
            && (forall i, j :: 0 <= i < j < |items| ==> KeyLess(items[i].0, items[j].0))
            && (forall k :: k in g.tables <==> exists i :: 0 <= i < |items| && items[i].0 == k)
            && (forall i :: 0 <= i < |items| ==> items[i].0 in g.tables && items[i].1 == g.tables[items[i].0])
  {
    var items := SortedItems(g);
    var keys := SortKeys(g.order);
    SortedItemsKeys(g);
    SortedKeysOrder(g);
    forall k | k in g.tables
      ensures exists i :: 0 <= i < |items| && items[i].0 == k
    {
      var i :| 0 <= i < |keys| && keys[i] == k;
      assert items[i].0 == k;
    }
  }

  // ---------------------------------------------------------------- column attributes

  /** The place of an attribute in the order `pk`, `unique`, `increment`, `not null`, `default`. */
  function LegacyKind(a: string): nat {
    if a == "pk" then 0
    else if a == "unique" then 1
    else if a == "increment" then 2
    else if a == "not null" then 3
    else if StartsWith(a, "default: ") then 4
    else 5
  }

  lemma LegacyKeywordKinds()
    ensures LegacyKind("pk") == 0 && LegacyKind("unique") == 1
    ensures LegacyKind("increment") == 2 && LegacyKind("not null") == 3
  {
    assert "unique" != "pk" && "increment" != "pk" && "increment" != "unique";
    assert "not null" != "pk" && "not null" != "unique" && "not null" != "increment";
  }

  lemma LegacyDefaultKind(v: string)
    ensures LegacyKind("default: " + v) == 4
  {
    var a := "default: " + v;
    assert a[..9] == "default: " && a[0] == 'd';
  }

  lemma PkUniqueIncrease(pk: bool, unique: bool)
    ensures JsonDbmlProperties.KindsIncreaseBelow(LegacyKind, (if pk then ["pk"] else []) + (if unique then ["unique"] else []), 2)
  {
    var p := if pk then ["pk"] else [];
    LegacyKeywordKinds();
    JsonDbmlProperties.ExtendWith(LegacyKind, [], pk, "pk", 0);
    assert [] + p == p;
    JsonDbmlProperties.ExtendWith(LegacyKind, p, unique, "unique", 1);
  }

  lemma IncrementNotNullIncrease(a: seq<string>, increment: bool, notNull: bool)
    requires JsonDbmlProperties.KindsIncreaseBelow(LegacyKind, a, 2)
    ensures JsonDbmlProperties.KindsIncreaseBelow(LegacyKind, a + (if increment then ["increment"] else []) + (if notNull then ["not null"] else []), 4)
  {
    LegacyKeywordKinds();
    JsonDbmlProperties.ExtendWith(LegacyKind, a, increment, "increment", 2);
    JsonDbmlProperties.ExtendWith(LegacyKind, a + (if increment then ["increment"] else []), notNull, "not null", 3);
  }

  /** The keywords come in the order `pk`, `unique`, `increment`, `not null`. */
  lemma KeywordAttrsIncrease(pk: bool, unique: bool, increment: bool, notNull: bool)
    ensures JsonDbmlProperties.KindsIncreaseBelow(LegacyKind, KeywordAttrs(pk, unique, increment, notNull), 4)
  {
    PkUniqueIncrease(pk, unique);
    IncrementNotNullIncrease((if pk then ["pk"] else []) + (if unique then ["unique"] else []), increment, notNull);
  }

  /** The attributes of a column come in the order `pk`, `unique`, `increment`, `not null`, `default`, each at most once. */
  lemma LegacyAttrsOrder(c: ColumnEntry)
    ensures var attrs := LegacyAttrs(c);
            forall i, j :: 0 <= i < j < |attrs| ==> LegacyKind(attrs[i]) < LegacyKind(attrs[j]) < 5
  {
    var kw := KeywordAttrs(Truthy(c.pk), Truthy(c.unique), Truthy(c.auto), !Truthy(c.nullable));
    KeywordAttrsIncrease(Truthy(c.pk), Truthy(c.unique), Truthy(c.auto), !Truthy(c.nullable));
    if ShowsDefault(c.default) {
      LegacyDefaultKind(c.default.value);
    }
    JsonDbmlProperties.KindsExtend(LegacyKind, kw, DefaultAttr(c.default), 4);
    JsonDbmlProperties.KindsIncreasePairwise(LegacyKind, LegacyAttrs(c), 5);
  }

  lemma KeywordsAreNotDefaults(a: string)
    requires a in ["pk", "unique", "increment", "not null"]
    ensures !StartsWith(a, "default: ")
  {
    if a == "increment" {
      assert a[0] != 'd';
    }
  }

  /** Each keyword is present exactly when its flag holds, and no keyword is a default. */
  lemma KeywordAttrsMembers(pk: bool, unique: bool, increment: bool, notNull: bool)
    ensures var kw := KeywordAttrs(pk, unique, increment, notNull);
            && ("pk" in kw <==> pk)
            && ("unique" in kw <==> unique)
            && ("increment" in kw <==> increment)
            && ("not null" in kw <==> notNull)
            && forall i :: 0 <= i < |kw| ==> kw[i] in ["pk", "unique", "increment", "not null"]
  {
  }

  /** The default attribute is there exactly when the default is shown, and no keyword is among it. */
  lemma DefaultAttrMembers(default: Option<string>)
    ensures var df := DefaultAttr(default);
            && ((exists i :: 0 <= i < |df| && StartsWith(df[i], "default: ")) <==> ShowsDefault(default))
            && (ShowsDefault(default) ==> df == ["default: " + default.value])
            && "pk" !in df && "unique" !in df && "increment" !in df && "not null" !in df
  {
    if ShowsDefault(default) {
      var d := "default: " + default.value;
      assert d[..9] == "default: ";
      assert "pk" != d && "unique" != d && "increment" != d && "not null" != d by {
        assert |d| >= 9 && d[0] == 'd';
      }
      assert StartsWith(DefaultAttr(default)[0], "default: ");
    }
  }

  lemma AttrsMembers(pk: bool, unique: bool, increment: bool, notNull: bool, default: Option<string>)
    ensures var attrs := KeywordAttrs(pk, unique, increment, notNull) + DefaultAttr(default);
            && ("pk" in attrs <==> pk)
            && ("unique" in attrs <==> unique)
            && ("increment" in attrs <==> increment)
            && ("not null" in attrs <==> notNull)
            && ((exists i :: 0 <= i < |attrs| && StartsWith(attrs[i], "default: ")) <==> ShowsDefault(default))
            && (ShowsDefault(default) ==> attrs[|attrs| - 1] == "default: " + default.value)
  {
    var kw := KeywordAttrs(pk, unique, increment, notNull);
    var df := DefaultAttr(default);
    var attrs := kw + df;
    KeywordAttrsMembers(pk, unique, increment, notNull);
    DefaultAttrMembers(default);
    forall i | 0 <= i < |attrs| && StartsWith(attrs[i], "default: ")
      ensures ShowsDefault(default)
    {
      if i < |kw| {
        KeywordsAreNotDefaults(kw[i]);
      } else {
        assert attrs[i] == df[i - |kw|];
      }
    }
    if ShowsDefault(default) {
      assert attrs[|kw|] == df[0];
    }
  }

  /**
   * Each keyword appears exactly when its flag holds, and a default appears,
   * last, exactly when it is not `None`, `""` or `"null"`.
   */
  lemma LegacyAttrsMembers(c: ColumnEntry)
    ensures var attrs := LegacyAttrs(c);
            && ("pk" in attrs <==> Truthy(c.pk))
            && ("unique" in attrs <==> Truthy(c.unique))
            && ("increment" in attrs <==> Truthy(c.auto))
            && ("not null" in attrs <==> !Truthy(c.nullable))
            && ((exists i :: 0 <= i < |attrs| && StartsWith(attrs[i], "default: ")) <==> ShowsDefault(c.default))
            && (ShowsDefault(c.default) ==> attrs[|attrs| - 1] == "default: " + c.default.value)
  {
    AttrsMembers(Truthy(c.pk), Truthy(c.unique), Truthy(c.auto), !Truthy(c.nullable), c.default);
  }

  // ---------------------------------------------------------------- emitted lines

  /** A column line never fails but on a true non-str remark (`AttributeError`) or an int or bool name (`TypeError`), in that order. */
  lemma EntryLineErrors(c: ColumnEntry)
    ensures var badNote := Truthy(c.remarks) && !c.remarks.JStr?;
            && (EntryLine(c).Err? <==> badNote || c.name.JInt? || c.name.JBool?)
            && (badNote ==> EntryLine(c) == Err(AttributeError))
            && (!badNote && EntryLine(c).Err? ==> EntryLine(c) == Err(TypeError))
  {
  }

  /** A text remark becomes a ` // ` note ending the line, its double quotes escaped so that it reads back unchanged. */
  lemma EntryLineNote(c: ColumnEntry, s: string)
    requires c.remarks == JStr(s) && s != ""
    requires EntryLine(c).Ok?
    ensures var note := " // " + EscapeDoubleQuotes(s);
            EndsWith(EntryLine(c).value, note) && UnescapeDoubleQuotes(note[4..]) == s
  {
    var note := " // " + EscapeDoubleQuotes(s);
    var line := EntryLine(c).value;
    var head := "  " + SafeIdent(c.name).value + " " + c.typ + JsonDbml.AttrSuffix(LegacyAttrs(c));
    assert line == head + note;
    assert line[|line| - |note|..] == note;
    assert note[4..] == EscapeDoubleQuotes(s);
    UnescapeAfterEscape(s);
  }

  /** The column lines are collected one per column, in order, until one fails. */
  lemma EntryLinesValues(cols: seq<ColumnEntry>)
    ensures EntryLines(cols).Ok? <==> forall i :: 0 <= i < |cols| ==> EntryLine(cols[i]).Ok?
    ensures EntryLines(cols).Ok? ==>
      |EntryLines(cols).value| == |cols| && forall i :: 0 <= i < |cols| ==> EntryLines(cols).value[i] == EntryLine(cols[i]).value
  {
    AllOkMap(EntryLine, cols);
  }

  /** A table block is its header, its column lines in order, and `}` with the blank line after it. */
  lemma TableLinesShape(k: TableKey, cols: seq<ColumnEntry>)
    requires TableLines(k, cols).Ok?
    ensures var ls := TableLines(k, cols).value;
            && EntryLines(cols).Ok?
            && |ls| == |cols| + 2
            && ls[0] == Header(k) && ls[|ls| - 1] == "}\n"
            && ls[1..|ls| - 1] == EntryLines(cols).value
  {
    EntryLinesValues(cols);
    var ls := TableLines(k, cols).value;
    assert ls == [Header(k)] + EntryLines(cols).value + ["}\n"];
  }

  /** The header lines of an output, in order. */
  function Headers(lines: seq<string>): seq<string>
    decreases |lines|
  {
    if lines == [] then []
    else Headers(lines[..|lines| - 1]) + (if StartsWith(lines[|lines| - 1], "Table ") then [lines[|lines| - 1]] else [])
  }

  lemma {:induction false} HeadersAppend(a: seq<string>, b: seq<string>)
    ensures Headers(a + b) == Headers(a) + Headers(b)
    decreases |b|
  {
    if b == [] {
      assert a + b == a;
    } else {
      var b' := b[..|b| - 1];
      assert (a + b)[..|a + b| - 1] == a + b';
      HeadersAppend(a, b');
    }
  }

  /** Lines that start with a space are not header lines. */
  lemma {:induction false} IndentedHasNoHeaders(body: seq<string>)
    requires forall i :: 0 <= i < |body| ==> body[i] != "" && body[i][0] == ' '
    ensures Headers(body) == []
    decreases |body|
  {
    if body != [] {
      var n := |body| - 1;
      IndentedHasNoHeaders(body[..n]);
      assert body[n][0] != "Table "[0];
    }
  }

  /** A header, indented lines and a closing line hold one header line. */
  lemma FramedHeaders(head: string, body: seq<string>, last: string)
    requires StartsWith(head, "Table ") && !StartsWith(last, "Table ")
    requires forall i :: 0 <= i < |body| ==> body[i] != "" && body[i][0] == ' '
    ensures Headers([head] + body + [last]) == [head]
  {
    IndentedHasNoHeaders(body);
    HeadersAppend([head] + body, [last]);
    HeadersAppend([head], body);
    assert [head][..0] == [] && [last][..0] == [];
  }

  /** A column line starts with its two-space indent. */
  lemma EntryLineIndented(c: ColumnEntry)
    requires EntryLine(c).Ok?
    ensures EntryLine(c).value[..2] == "  "
  {
  }

  lemma ItemHeaders(item: (TableKey, seq<ColumnEntry>))
    requires ItemLines(item).Ok?
    ensures Headers(ItemLines(item).value) == [Header(item.0)]
  {
    BlockHeaders(item.0, item.1);
  }

  /** A block has one header line, its own: column lines are indented. */
  lemma BlockHeaders(k: TableKey, cols: seq<ColumnEntry>)
    requires TableLines(k, cols).Ok?
    ensures Headers(TableLines(k, cols).value) == [Header(k)]
  {
    EntryLinesValues(cols);
    var body := EntryLines(cols).value;
    forall i | 0 <= i < |body|
      ensures body[i] != "" && body[i][0] == ' '
    {
      EntryLineIndented(cols[i]);
    }
    assert TableLines(k, cols).value == [Header(k)] + body + ["}\n"];
    assert Header(k)[..6] == "Table ";
    assert "}\n"[0] != 'T';
    FramedHeaders(Header(k), body, "}\n");
  }

  /** The header lines of the emitted blocks are the tables' headers, in the order of the items. */
  lemma EmitItemsHeaders(items: seq<(TableKey, seq<ColumnEntry>)>)
    requires EmitItems(items).Ok?
    ensures var hs := Headers(EmitItems(items).value);
            |hs| == |items| && forall i :: 0 <= i < |items| ==> hs[i] == Header(items[i].0)
  {
    AllOkMap(ItemLines, items);
    var blocks := AllOk(MapResults(ItemLines, items)).value;
    forall i | 0 <= i < |items|
      ensures Headers(blocks[i]) == [Header(items[i].0)]
    {
      ItemHeaders(items[i]);
    }
    ConcatHeaders(blocks);
  }

  /** Blocks with one header line each give those header lines in order. */
  lemma {:induction false} ConcatHeaders(blocks: seq<seq<string>>)
    requires forall i :: 0 <= i < |blocks| ==> |Headers(blocks[i])| == 1
    ensures var hs := Headers(Concat(blocks));
            |hs| == |blocks| && forall i :: 0 <= i < |blocks| ==> hs[i] == Headers(blocks[i])[0]
    decreases |blocks|
  {
    if blocks != [] {
      var n := |blocks| - 1;
      var init := blocks[..n];
      assert forall i :: 0 <= i < n ==> init[i] == blocks[i];
      ConcatHeaders(init);
      HeadersAppend(Concat(init), blocks[n]);
    }
  }

  /**
   * A converted document lists one header per table, each table once, in
   * strictly increasing `(schema, table)` order.
   */
  lemma RenderTablesSorted(columns: seq<Json>, index: UuidIndex)
    requires Render(columns, index).Ok?
    ensures var g := Collect(columns, index).value;
            var lines := EmitItems(SortedItems(g)).value;
            var keys := SortKeys(g.order);
            var hs := Headers(lines);
            && Render(columns, index).value == Join(lines, "\n")
            && Ascending(keys)
            && (forall k :: k in g.tables <==> k in keys)
            && |hs| == |keys| && forall i :: 0 <= i < |keys| ==> hs[i] == Header(keys[i])
  {
    var g := Collect(columns, index).value;
    var items := SortedItems(g);
    SortedItemsKeys(g);
    SortedKeysOrder(g);
    EmitItemsHeaders(items);
  }
}
