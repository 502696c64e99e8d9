/**
 * `convert_to_dbml` of schemacrawler/json_dbml_converter.py as the program runs
 * it: `collect_uuid_map` filling one dictionary in place, and the loops that
 * append to `out_lines`, `refs`, `attrs`, `index_lines` and `opts`. Each method
 * is proved to compute exactly what the matching function of module JsonDbml
 * describes, raising the same exception when the input is malformed. The list
 * comprehensions and the `cols.sort` call stay the functions of JsonDbml.
 */
module JsonDbmlConvert {
  import opened Text
  import opened JsonValue
  import opened JsonDbml

  /** The dictionary `collect_uuid_map` fills: objects by their `@uuid`. */
  class UuidCollector {
    var entries: UuidMap

    constructor()
      ensures entries == map[]
    {
      entries := map[];
    }

    /**
     * `collect_uuid_map(obj, self.entries)`: records every object of the tree
     * that has a truthy `@uuid`, in walk order, a later object replacing an
     * earlier one with the same uuid. Fails (`TypeError`) exactly when such a
     * uuid is a list or an object.
     */
    method Collect(obj: Json) returns (ok: bool)
      modifies this
      ensures ok <==> AllHashable(UuidWrites(Objects(obj)))
      ensures ok ==> entries == Record(old(entries), UuidWrites(Objects(obj)))
      decreases obj, 1
    {
      if obj.JObj? {
        ok := CollectObject(obj);
      } else if obj.JArr? {
        ok := CollectItems(obj);
      } else {
        ok := true;
      }
    }

    /** The dict branch: the object's own `@uuid`, then each member value in turn. */
    method CollectObject(obj: Json) returns (ok: bool)
      requires obj.JObj?
      modifies this
      ensures ok <==> AllHashable(UuidWrites(Objects(obj)))
      ensures ok ==> entries == Record(old(entries), UuidWrites(Objects(obj)))
      decreases obj, 0
    {
      var fs := obj.fields;
      var uid := UuidOf(fs);
      MemberWritesStart(obj, entries);
      if Truthy(uid) {
        if !Hashable(uid) {
          return false;
        }
        entries := entries[uid := fs];
      }
      var i := 0;
      while i < |fs|
        invariant 0 <= i <= |fs|
        invariant AllHashable(MemberWrites(obj, i))
        invariant entries == Record(old(entries), MemberWrites(obj, i))
      {
        ok := Collect(fs[i].1);
        MemberWritesNext(obj, i);
        AllHashableAppend(MemberWrites(obj, i), UuidWrites(Objects(fs[i].1)));
        if !ok {
          MemberWritesPrefix(obj, i + 1);
          NotAllHashableExtends(MemberWrites(obj, i + 1), UuidWrites(Objects(obj)));
          return false;
        }
        RecordAppend(old(entries), MemberWrites(obj, i), UuidWrites(Objects(fs[i].1)));
        i := i + 1;
      }
      MemberWritesPrefix(obj, |fs|);
      ok := true;
    }

    /** The list branch: each item in turn. */
    method CollectItems(obj: Json) returns (ok: bool)
      requires obj.JArr?
      modifies this
      ensures ok <==> AllHashable(UuidWrites(Objects(obj)))
      ensures ok ==> entries == Record(old(entries), UuidWrites(Objects(obj)))
      decreases obj, 0
    {
      var xs := obj.items;
      var i := 0;
      ItemWritesPrefix(obj, 0);
      while i < |xs|
        invariant 0 <= i <= |xs|
        invariant AllHashable(ItemWrites(obj, i))
        invariant entries == Record(old(entries), ItemWrites(obj, i))
      {
        ok := Collect(xs[i]);
        ItemWritesNext(obj, i);
        AllHashableAppend(ItemWrites(obj, i), UuidWrites(Objects(xs[i])));
        if !ok {
          ItemWritesPrefix(obj, i + 1);
          NotAllHashableExtends(ItemWrites(obj, i + 1), UuidWrites(Objects(obj)));
          return false;
        }
        RecordAppend(old(entries), ItemWrites(obj, i), UuidWrites(Objects(xs[i])));
        i := i + 1;
      }
      ItemWritesPrefix(obj, |xs|);
      ok := true;
    }
  }

  /** The writes made by the walk of an object itself and of its first `i` member values. */
  ghost function MemberWrites(obj: Json, i: nat): seq<(Json, Dict)>
    requires obj.JObj? && i <= |obj.fields|
  {
    UuidWrites([obj.fields] + MemberObjects(obj, obj.fields[..i]))
  }

  /** The writes made by the walk of the first `i` items of a list. */
  ghost function ItemWrites(obj: Json, i: nat): seq<(Json, Dict)>
    requires obj.JArr? && i <= |obj.items|
  {
    UuidWrites(ItemObjects(obj, obj.items[..i]))
  }

  /** The object's own write comes first: it fails on an unhashable truthy `@uuid`, otherwise it records the object. */
  lemma MemberWritesStart(obj: Json, m: UuidMap)
    requires obj.JObj?
    ensures var uid := UuidOf(obj.fields);
            && (AllHashable(MemberWrites(obj, 0)) <==> !Truthy(uid) || Hashable(uid))
            && (Truthy(uid) && !Hashable(uid) ==> !AllHashable(UuidWrites(Objects(obj))))
            && Record(m, MemberWrites(obj, 0)) == if Truthy(uid) then m[uid := obj.fields] else m
  {
    var fs := obj.fields;
    var uid := UuidOf(fs);
    assert [fs] + MemberObjects(obj, fs[..0]) == [fs];
    assert [fs][..0] == [];
    var w := MemberWrites(obj, 0);
    assert w == if Truthy(uid) then [(uid, fs)] else [];
    if Truthy(uid) {
      assert w[0].0 == uid;
      RecordSnoc(m, [], (uid, fs));
      assert [] + [(uid, fs)] == w;
      if !Hashable(uid) {
        MemberWritesPrefix(obj, 0);
        NotAllHashableExtends(w, UuidWrites(Objects(obj)));
      }
    }
  }

  lemma MemberWritesNext(obj: Json, i: nat)
    requires obj.JObj? && i < |obj.fields|
    ensures MemberWrites(obj, i + 1) == MemberWrites(obj, i) + UuidWrites(Objects(obj.fields[i].1))
  {
    var fs := obj.fields;
    var before := [fs] + MemberObjects(obj, fs[..i]);
    MemberObjectsSnoc(obj, fs, i);
    assert [fs] + MemberObjects(obj, fs[..i + 1]) == before + Objects(fs[i].1);
    UuidWritesAppend(before, Objects(fs[i].1));
  }

  /** The writes so far are the first writes of the whole walk, and all of them once every member is walked. */
  lemma MemberWritesPrefix(obj: Json, i: nat)
    requires obj.JObj? && i <= |obj.fields|
    ensures MemberWrites(obj, i) <= UuidWrites(Objects(obj))
    ensures i == |obj.fields| ==> MemberWrites(obj, i) == UuidWrites(Objects(obj))
  {
    var fs := obj.fields;
    MemberObjectsPrefix(obj, fs, i);
    UuidWritesPrefix([fs] + MemberObjects(obj, fs[..i]), Objects(obj));
    if i == |fs| {
      assert fs[..i] == fs;
    }
  }

  lemma ItemWritesNext(obj: Json, i: nat)
    requires obj.JArr? && i < |obj.items|
    ensures ItemWrites(obj, i + 1) == ItemWrites(obj, i) + UuidWrites(Objects(obj.items[i]))
  {
    ItemObjectsSnoc(obj, obj.items, i);
    UuidWritesAppend(ItemObjects(obj, obj.items[..i]), Objects(obj.items[i]));
  }

  lemma ItemWritesPrefix(obj: Json, i: nat)
    requires obj.JArr? && i <= |obj.items|
    ensures ItemWrites(obj, i) <= UuidWrites(Objects(obj))
    ensures i == 0 ==> ItemWrites(obj, i) == []
    ensures i == |obj.items| ==> ItemWrites(obj, i) == UuidWrites(Objects(obj))
  {
    var xs := obj.items;
    ItemObjectsPrefix(obj, xs, i);
    UuidWritesPrefix(ItemObjects(obj, xs[..i]), Objects(obj));
    if i == |xs| {
      assert xs[..i] == xs;
    }
    if i == 0 {
      assert ItemObjects(obj, xs[..0]) == [];
    }
  }

  /** A write that cannot be made among the first writes is one the whole walk cannot make. */
  lemma NotAllHashableExtends(a: seq<(Json, Dict)>, b: seq<(Json, Dict)>)
    requires a <= b && !AllHashable(a)
    ensures !AllHashable(b)
  {
    var i :| 0 <= i < |a| && !Hashable(a[i].0);
    assert b[i] == a[i];
  }

  // ---------------------------------------------------------------- one column line

  /** Lines 87-104: one column line: its data type, its attributes and its sanitized name. */
  method BuildColumnLine(c: Dict, pkCols: seq<Json>, uuids: UuidMap) returns (r: Result<string>)
    ensures r == ColumnLine(c, pkCols, uuids)
  {
    var cname := Field(c, "name", JNull);
    var ctype := ResolveDatatype(Field(c, "column-data-type", JNull), uuids);
    var isPk := cname in pkCols && |pkCols| == 1;
    var notNull := !Truthy(Field(c, "nullable", JBool(true)));
    var unique := Truthy(Field(c, "part-of-unique-index", JBool(false))) && cname !in pkCols;
    var dval := FormatDefault(Field(c, "default-value", JNull));
    var noteResult := RemarkText(Field(c, "remarks", JNull));
    if noteResult.Err? {
      return Err(noteResult.error);
    }
    var note := noteResult.value;
    var attrs := AppendAttrs(isPk, notNull, unique, dval, note);
    var nameResult := SanitizeIdentifier(cname);
    if nameResult.Err? {
      return Err(nameResult.error);
    }
    var name := nameResult.value;
    r := Ok("  " + name + " " + PyStr(ctype) + AttrSuffix(attrs));
  }

  /** Lines 89-102: `attrs`, appended in the order `pk`, `not null`, `unique`, `default`, `note`. */
  method AppendAttrs(isPk: bool, notNull: bool, unique: bool, dval: Option<string>, note: string) returns (attrs: seq<string>)
    ensures attrs == AttrList(isPk, notNull, unique, dval, note)
  {
    ghost var p := if isPk then ["pk"] else [];
    ghost var nn := if notNull then ["not null"] else [];
    ghost var u := if unique then ["unique"] else [];
    ghost var df := if dval.Some? then ["default: " + dval.value] else [];
    attrs := [];
    if isPk {
      attrs := attrs + ["pk"];
    }
    assert attrs == p;
    if notNull {
      attrs := attrs + ["not null"];
    }
    assert attrs == p + nn;
    if unique {
      attrs := attrs + ["unique"];
    }
    assert attrs == p + nn + u;
    if dval.Some? {
      attrs := attrs + ["default: " + dval.value];
    }
    assert attrs == p + nn + u + df;
    if note != "" {
      attrs := attrs + ["note: '" + DoubleQuotes(note) + "'"];
    }
  }

  /** Lines 86-104: one line per sorted column, appended in order. */
  method BuildColumnLines(cols: seq<Dict>, pkCols: seq<Json>, uuids: UuidMap) returns (r: Result<seq<string>>)
    ensures r == ColumnLines(cols, pkCols, uuids)
  {
    ghost var rs := MapResults(ColumnLineWith(pkCols, uuids), cols);
    var lines: seq<string> := [];
    var i := 0;
    assert rs[..0] == [];
    while i < |cols|
      invariant 0 <= i <= |cols|
      invariant AllOk(rs[..i]) == Ok(lines)
    {
      var line := BuildColumnLine(cols[i], pkCols, uuids);
      assert rs[i] == line;
      if line.Err? {
        AllOkFail(rs, i, lines);
        return Err(line.error);
      }
      AllOkNext(rs, i, lines);
      lines := lines + [line.value];
      i := i + 1;
    }
    AllOkAll(rs, lines);
    r := Ok(lines);
  }

  // ---------------------------------------------------------------- indexes

  /** Lines 123-133: the `(...) [unique]` lines appended to `index_lines`. */
  method BuildUniqueIndexLines(entries: seq<Dict>, pkId: Json, byId: ColumnIndex) returns (r: Result<seq<string>>)
    ensures r == UniqueIndexLines(entries, pkId, byId)
  {
    var lines: seq<string> := [];
    var i := 0;
    while i < |entries|
      invariant 0 <= i <= |entries|
      invariant UniqueIndexLines(entries[..i], pkId, byId) == Ok(lines)
    {
      var line := UniqueIndexLine(entries[i], pkId, byId);
      if line.Err? {
        UniqueIndexLinesFail(entries, pkId, byId, i, lines);
        return Err(line.error);
      }
      UniqueIndexLinesNext(entries, pkId, byId, i, lines);
      if line.value.Some? {
        lines := lines + [line.value.value];
      }
      i := i + 1;
    }
    assert entries[..|entries|] == entries;
    r := Ok(lines);
  }

  lemma UniqueIndexLinesNext(entries: seq<Dict>, pkId: Json, byId: ColumnIndex, i: nat, lines: seq<string>)
    requires i < |entries| && UniqueIndexLines(entries[..i], pkId, byId) == Ok(lines)
    requires UniqueIndexLine(entries[i], pkId, byId).Ok?
    ensures var line := UniqueIndexLine(entries[i], pkId, byId).value;
            UniqueIndexLines(entries[..i + 1], pkId, byId) == Ok(if line.Some? then lines + [line.value] else lines)
  {
    assert entries[..i + 1][..i] == entries[..i] && entries[..i + 1][i] == entries[i];
  }

  lemma UniqueIndexLinesFail(entries: seq<Dict>, pkId: Json, byId: ColumnIndex, i: nat, lines: seq<string>)
    requires i < |entries| && UniqueIndexLines(entries[..i], pkId, byId) == Ok(lines)
    requires UniqueIndexLine(entries[i], pkId, byId).Err?
    ensures UniqueIndexLines(entries, pkId, byId) == Err(UniqueIndexLine(entries[i], pkId, byId).error)
  {
    assert entries[..i + 1][..i] == entries[..i] && entries[..i + 1][i] == entries[i];
    UniqueIndexLinesStop(entries, pkId, byId, i + 1);
  }

  lemma {:induction false} UniqueIndexLinesStop(entries: seq<Dict>, pkId: Json, byId: ColumnIndex, n: nat)
    requires n <= |entries| && UniqueIndexLines(entries[..n], pkId, byId).Err?
    ensures UniqueIndexLines(entries, pkId, byId) == UniqueIndexLines(entries[..n], pkId, byId)
    decreases |entries|
  {
    if n < |entries| {
      var init := entries[..|entries| - 1];
      assert init[..n] == entries[..n];
      UniqueIndexLinesStop(init, pkId, byId, n);
    } else {
      assert entries[..n] == entries;
    }
  }

  // ---------------------------------------------------------------- foreign keys

  /** Lines 152-154: one column reference: its two column names, and the pair unless one of them is missing. */
  method BuildRefLine(cr: Json, fk: Dict, refTableName: Json, tableName: Json, byId: ColumnIndex) returns (r: Result<Option<string>>)
    ensures r == RefLine(cr, fk, refTableName, tableName, byId)
  {
    var crdResult := AsDict(cr);
    if crdResult.Err? {
      return Err(crdResult.error);
    }
    var crd := crdResult.value;
    var fkColResult := RefColumnName(crd, "foreign-key-column", byId);
    if fkColResult.Err? {
      return Err(fkColResult.error);
    }
    var fkCol := fkColResult.value;
    var pkColResult := RefColumnName(crd, "primary-key-column", byId);
    if pkColResult.Err? {
      return Err(pkColResult.error);
    }
    var pkCol := pkColResult.value;
    if !Truthy(fkCol) || !Truthy(pkCol) {
      return Ok(None);
    }
    r := BuildRefPair(fk, fkCol, pkCol, refTableName, tableName);
  }

  /** Lines 156-167: the options, then the self-reference check and the `Ref:` line. */
  method BuildRefPair(fk: Dict, fkCol: Json, pkCol: Json, refTableName: Json, tableName: Json) returns (r: Result<Option<string>>)
    ensures r == RefPair(fk, fkCol, pkCol, refTableName, tableName)
  {
    var opts := BuildRefRules(fk);
    if opts.Err? {
      return Err(opts.error);
    }
    r := BuildRefChecked(refTableName, pkCol, tableName, fkCol, opts.value);
  }

  /** Lines 163-167: the self-reference check, then the `Ref:` line. */
  method BuildRefChecked(refTableName: Json, pkCol: Json, tableName: Json, fkCol: Json, opts: seq<string>) returns (r: Result<Option<string>>)
    ensures r == RefChecked(refTableName, pkCol, tableName, fkCol, opts)
  {
    if SelfReference(refTableName, pkCol, tableName, fkCol) {
      return Ok(None);
    }
    r := BuildRefText(refTableName, pkCol, tableName, fkCol, opts);
  }

  /** Lines 156-162: the delete and update rules of the foreign key, as `opts`. */
  method BuildRefRules(fk: Dict) returns (r: Result<seq<string>>)
    ensures r == RefRules(fk)
  {
    var deleteRule := RuleName(fk, "delete-rule");
    if deleteRule.Err? {
      return Err(deleteRule.error);
    }
    var updateRule := RuleName(fk, "update-rule");
    if updateRule.Err? {
      return Err(updateRule.error);
    }
    var opts := AppendRefOptions(deleteRule.value, updateRule.value);
    r := Ok(opts);
  }

  /** Lines 165-167: the two qualified names and the `Ref:` line. */
  method BuildRefText(refTableName: Json, pkCol: Json, tableName: Json, fkCol: Json, opts: seq<string>) returns (r: Result<Option<string>>)
    ensures r == RefTextOf(refTableName, pkCol, tableName, fkCol, opts)
  {
    var left := QualifiedName(refTableName, pkCol);
    if left.Err? {
      return Err(left.error);
    }
    var right := QualifiedName(tableName, fkCol);
    if right.Err? {
      return Err(right.error);
    }
    r := Ok(Some("Ref: " + left.value + " > " + right.value + OptionSuffix(opts)));
  }

  /** Lines 158-162: `opts`, the delete rule first, then the update rule. */
  method AppendRefOptions(deleteRule: Json, updateRule: Json) returns (opts: seq<string>)
    ensures opts == RefOptions(deleteRule, updateRule)
  {
    opts := [];
    if Truthy(deleteRule) {
      opts := opts + ["delete: " + PyStr(deleteRule)];
    }
    assert opts == if Truthy(deleteRule) then ["delete: " + PyStr(deleteRule)] else [];
    if Truthy(updateRule) {
      opts := opts + ["update: " + PyStr(updateRule)];
    }
  }

  /** Lines 151-167: the `Ref:` lines of one foreign key's column references. */
  method BuildRefLines(crs: seq<Json>, fk: Dict, refTableName: Json, tableName: Json, byId: ColumnIndex) returns (r: Result<seq<string>>)
    ensures r == RefLines(crs, fk, refTableName, tableName, byId)
  {
    var refs: seq<string> := [];
    var i := 0;
    while i < |crs|
      invariant 0 <= i <= |crs|
      invariant RefLines(crs[..i], fk, refTableName, tableName, byId) == Ok(refs)
    {
      var line := BuildRefLine(crs[i], fk, refTableName, tableName, byId);
      if line.Err? {
        RefLinesFail(crs, fk, refTableName, tableName, byId, i, refs);
        return Err(line.error);
      }
      RefLinesNext(crs, fk, refTableName, tableName, byId, i, refs);
      if line.value.Some? {
        refs := refs + [line.value.value];
      }
      i := i + 1;
    }
    assert crs[..|crs|] == crs;
    r := Ok(refs);
  }

  lemma RefLinesNext(crs: seq<Json>, fk: Dict, refTableName: Json, tableName: Json, byId: ColumnIndex, i: nat, refs: seq<string>)
    requires i < |crs| && RefLines(crs[..i], fk, refTableName, tableName, byId) == Ok(refs)
    requires RefLine(crs[i], fk, refTableName, tableName, byId).Ok?
    ensures var line := RefLine(crs[i], fk, refTableName, tableName, byId).value;
            RefLines(crs[..i + 1], fk, refTableName, tableName, byId) == Ok(if line.Some? then refs + [line.value] else refs)
  {
    assert crs[..i + 1][..i] == crs[..i] && crs[..i + 1][i] == crs[i];
  }

  lemma RefLinesFail(crs: seq<Json>, fk: Dict, refTableName: Json, tableName: Json, byId: ColumnIndex, i: nat, refs: seq<string>)
    requires i < |crs| && RefLines(crs[..i], fk, refTableName, tableName, byId) == Ok(refs)
    requires RefLine(crs[i], fk, refTableName, tableName, byId).Err?
    ensures RefLines(crs, fk, refTableName, tableName, byId) == Err(RefLine(crs[i], fk, refTableName, tableName, byId).error)
  {
    assert crs[..i + 1][..i] == crs[..i] && crs[..i + 1][i] == crs[i];
    RefLinesStop(crs, fk, refTableName, tableName, byId, i + 1);
  }

  lemma {:induction false} RefLinesStop(crs: seq<Json>, fk: Dict, refTableName: Json, tableName: Json, byId: ColumnIndex, n: nat)
    requires n <= |crs| && RefLines(crs[..n], fk, refTableName, tableName, byId).Err?
    ensures RefLines(crs, fk, refTableName, tableName, byId) == RefLines(crs[..n], fk, refTableName, tableName, byId)
    decreases |crs|
  {
    if n < |crs| {
      var init := crs[..|crs| - 1];
      assert init[..n] == crs[..n];
      RefLinesStop(init, fk, refTableName, tableName, byId, n);
    } else {
      assert crs[..n] == crs;
    }
  }

  /** Lines 145-147: the foreign key an entry denotes; skipped when absent or empty. */
  method BuildForeignKeyRefs(entry: Json, tableName: Json, uuids: UuidMap, byId: ColumnIndex) returns (r: Result<seq<string>>)
    ensures r == ForeignKeyRefs(entry, tableName, uuids, byId)
  {
    var fk := ForeignKeyObject(entry, uuids);
    if fk.Err? {
      return Err(fk.error);
    }
    if IsFalsyKey(fk.value) {
      return Ok([]);
    }
    r := BuildForeignKeyLines(fk.value.value, tableName, uuids, byId);
  }

  /** Lines 148-167: the referenced table's name, then the loop over the column references. */
  method BuildForeignKeyLines(fk: Dict, tableName: Json, uuids: UuidMap, byId: ColumnIndex) returns (r: Result<seq<string>>)
    ensures r == ForeignKeyLines(fk, tableName, uuids, byId)
  {
    var refTable := AsDict(ReferencedTable(fk, uuids));
    if refTable.Err? {
      return Err(refTable.error);
    }
    var crs := Iter(Collection(Field(fk, "column-references", JArr([]))));
    if crs.Err? {
      return Err(crs.error);
    }
    r := BuildRefLines(crs.value, fk, TableName(refTable.value), tableName, byId);
  }

  /** Line 143: the foreign-key entries of a table, then the loop over them. */
  method BuildTableRefs(t: Dict, tableName: Json, uuids: UuidMap, byId: ColumnIndex) returns (r: Result<seq<string>>)
    ensures r == TableRefs(t, tableName, uuids, byId)
  {
    var entries := Iter(Collection(Field(t, "foreign-keys", JArr([]))));
    if entries.Err? {
      return Err(entries.error);
    }
    r := BuildAllForeignKeyRefs(entries.value, tableName, uuids, byId);
  }

  /** Lines 144-167: the loop over a table's foreign keys. */
  method BuildAllForeignKeyRefs(entries: seq<Json>, tableName: Json, uuids: UuidMap, byId: ColumnIndex) returns (r: Result<seq<string>>)
    ensures r == AllForeignKeyRefs(entries, tableName, uuids, byId)
  {
    var refs: seq<string> := [];
    var i := 0;
    while i < |entries|
      invariant 0 <= i <= |entries|
      invariant AllForeignKeyRefs(entries[..i], tableName, uuids, byId) == Ok(refs)
    {
      var more := BuildForeignKeyRefs(entries[i], tableName, uuids, byId);
      if more.Err? {
        AllForeignKeyRefsFail(entries, tableName, uuids, byId, i, refs);
        return Err(more.error);
      }
      AllForeignKeyRefsNext(entries, tableName, uuids, byId, i, refs);
      refs := refs + more.value;
      i := i + 1;
    }
    assert entries[..|entries|] == entries;
    r := Ok(refs);
  }

  lemma AllForeignKeyRefsNext(entries: seq<Json>, tableName: Json, uuids: UuidMap, byId: ColumnIndex, i: nat, refs: seq<string>)
    requires i < |entries| && AllForeignKeyRefs(entries[..i], tableName, uuids, byId) == Ok(refs)
    requires ForeignKeyRefs(entries[i], tableName, uuids, byId).Ok?
    ensures AllForeignKeyRefs(entries[..i + 1], tableName, uuids, byId) == Ok(refs + ForeignKeyRefs(entries[i], tableName, uuids, byId).value)
  {
    assert entries[..i + 1][..i] == entries[..i] && entries[..i + 1][i] == entries[i];
  }

  lemma AllForeignKeyRefsFail(entries: seq<Json>, tableName: Json, uuids: UuidMap, byId: ColumnIndex, i: nat, refs: seq<string>)
    requires i < |entries| && AllForeignKeyRefs(entries[..i], tableName, uuids, byId) == Ok(refs)
    requires ForeignKeyRefs(entries[i], tableName, uuids, byId).Err?
    ensures AllForeignKeyRefs(entries, tableName, uuids, byId) == Err(ForeignKeyRefs(entries[i], tableName, uuids, byId).error)
  {
    assert entries[..i + 1][..i] == entries[..i] && entries[..i + 1][i] == entries[i];
    AllForeignKeyRefsStop(entries, tableName, uuids, byId, i + 1);
  }

  lemma {:induction false} AllForeignKeyRefsStop(entries: seq<Json>, tableName: Json, uuids: UuidMap, byId: ColumnIndex, n: nat)
    requires n <= |entries| && AllForeignKeyRefs(entries[..n], tableName, uuids, byId).Err?
    ensures AllForeignKeyRefs(entries, tableName, uuids, byId) == AllForeignKeyRefs(entries[..n], tableName, uuids, byId)
    decreases |entries|
  {
    if n < |entries| {
      var init := entries[..|entries| - 1];
      assert init[..n] == entries[..n];
      AllForeignKeyRefsStop(init, tableName, uuids, byId, n);
    } else {
      assert entries[..n] == entries;
    }
  }

  // ---------------------------------------------------------------- tables and the document

  /** Lines 71-167: the lines one table appends to `out_lines` and to `refs`. */
  method BuildTable(t: Dict, uuids: UuidMap, byId: ColumnIndex) returns (r: Result<Emitted>)
    ensures r == TableBlock(t, uuids, byId)
  {
    var tableNoteResult := RemarkText(Field(t, "remarks", JNull));
    if tableNoteResult.Err? {
      return Err(tableNoteResult.error);
    }
    var tableNote := tableNoteResult.value;
    var colsResult := TableColumns(t, byId);
    if colsResult.Err? {
      return Err(colsResult.error);
    }
    var cols := colsResult.value;
    var pkResult := PrimaryKeyOf(Field(t, "primary-key", JNull), uuids, byId);
    if pkResult.Err? {
      return Err(pkResult.error);
    }
    var pk := pkResult.value;
    r := BuildTableOutput(t, tableNote, cols, pk, uuids, byId);
  }

  /** Lines 85-167: the header, column, note and index lines of a table, then its foreign-key lines. */
  method BuildTableOutput(t: Dict, tableNote: string, cols: seq<Dict>, pk: Option<PrimaryKey>, uuids: UuidMap, byId: ColumnIndex)
    returns (r: Result<Emitted>)
    ensures r == TableOutput(t, tableNote, cols, pk, uuids, byId)
  {
    var tableName := TableName(t);
    var headerResult := SanitizeIdentifier(tableName);
    if headerResult.Err? {
      return Err(headerResult.error);
    }
    var header := headerResult.value;
    var colLinesResult := BuildColumnLines(cols, if pk.Some? then pk.value.names else [], uuids);
    if colLinesResult.Err? {
      return Err(colLinesResult.error);
    }
    var colLines := colLinesResult.value;
    var indexLinesResult := BuildIndexLines(t, pk, uuids, byId);
    if indexLinesResult.Err? {
      return Err(indexLinesResult.error);
    }
    var indexLines := indexLinesResult.value;
    var lines := AppendTableLines(header, colLines, tableNote, indexLines);
    var refsResult := BuildTableRefs(t, tableName, uuids, byId);
    if refsResult.Err? {
      return Err(refsResult.error);
    }
    var refs := refsResult.value;
    r := Ok(Emitted(lines, refs));
  }

  /** Lines 85, 104-108 and 135-140: the lines of the table block, appended in order. */
  method AppendTableLines(header: string, colLines: seq<string>, tableNote: string, indexLines: seq<string>) returns (lines: seq<string>)
    ensures lines == TableLines(header, colLines, tableNote, indexLines)
  {
    lines := ["Table " + header + " {"];
    lines := lines + colLines;
    if tableNote != "" {
      lines := lines + ["  Note: '" + DoubleQuotes(tableNote) + "'"];
    }
    assert lines == ["Table " + header + " {"] + colLines + NoteLines(tableNote);
    if indexLines != [] {
      lines := lines + ["  indexes {"] + indexLines + ["  }"];
    }
    lines := lines + ["}\n"];
  }

  /** Lines 111-133: `index_lines`, the composite primary key first, then the unique indexes. */
  method BuildIndexLines(t: Dict, pk: Option<PrimaryKey>, uuids: UuidMap, byId: ColumnIndex) returns (r: Result<seq<string>>)
    ensures r == TableIndexLines(t, pk, uuids, byId)
  {
    var idxIdsResult := Iter(Collection(Field(t, "table-constraints", JArr([]))));
    if idxIdsResult.Err? {
      return Err(idxIdsResult.error);
    }
    var idxIds := idxIdsResult.value;
    var entriesResult := IndexEntries(idxIds, uuids);
    if entriesResult.Err? {
      return Err(entriesResult.error);
    }
    var entries := entriesResult.value;
    var indexLinesResult := PkIndexLines(pk);
    if indexLinesResult.Err? {
      return Err(indexLinesResult.error);
    }
    var indexLines := indexLinesResult.value;
    var uniqueLinesResult := BuildUniqueIndexLines(entries, Field(t, "primary-key", JNull), byId);
    if uniqueLinesResult.Err? {
      return Err(uniqueLinesResult.error);
    }
    var uniqueLines := uniqueLinesResult.value;
    r := Ok(indexLines + uniqueLines);
  }

  /** `convert_to_dbml` on a decoded document: the uuid index, then every table in turn, then the joined text. */
  method ConvertToDbml(data: Json) returns (r: Result<string>)
    ensures r == Convert(data)
  {
    var collector := new UuidCollector();
    var ok := collector.Collect(data);
    if !ok {
      return Err(TypeError);
    }
    r := BuildDocument(data, collector.entries);
  }

  /** Lines 61-169 once the uuid map is built. */
  method BuildDocument(data: Json, uuids: UuidMap) returns (r: Result<string>)
    ensures r == ConvertDocument(data, uuids)
  {
    var d := AsDict(data);
    if d.Err? {
      return Err(d.error);
    }
    var catalog := AsDict(Field(d.value, "catalog", JObj([])));
    if catalog.Err? {
      return Err(catalog.error);
    }
    var entries := Iter(Collection(Field(catalog.value, "tables", JArr([]))));
    if entries.Err? {
      return Err(entries.error);
    }
    var tables := TableObjects(entries.value, uuids);
    if tables.Err? {
      return Err(tables.error);
    }
    var columns := Iter(Collection(Field(d.value, "all-table-columns", JArr([]))));
    if columns.Err? {
      return Err(columns.error);
    }
    var byId := ColumnIndexOf(columns.value);
    if byId.Err? {
      return Err(byId.error);
    }
    r := RenderTables(tables.value, uuids, byId.value);
  }

  /** Lines 68-169: the table blocks and `Ref:` lines, joined by newlines. */
  method RenderTables(tables: seq<Dict>, uuids: UuidMap, byId: ColumnIndex) returns (r: Result<string>)
    ensures r == Render(tables, uuids, byId)
  {
    var e := BuildTables(tables, uuids, byId);
    if e.Err? {
      return Err(e.error);
    }
    r := Ok(Join(e.value.lines + e.value.refs, "\n"));
  }

  /** Lines 68-167: the loop over the tables, appending to `out_lines` and `refs`. */
  method BuildTables(tables: seq<Dict>, uuids: UuidMap, byId: ColumnIndex) returns (r: Result<Emitted>)
    ensures r == EmitTables(tables, uuids, byId)
  {
    var outLines: seq<string> := [];
    var refs: seq<string> := [];
    var i := 0;
    while i < |tables|
      invariant 0 <= i <= |tables|
      invariant EmitTables(tables[..i], uuids, byId) == Ok(Emitted(outLines, refs))
    {
      var e := BuildTable(tables[i], uuids, byId);
      if e.Err? {
        EmitTablesFail(tables, uuids, byId, i, Emitted(outLines, refs));
        return Err(e.error);
      }
      EmitTablesNext(tables, uuids, byId, i, Emitted(outLines, refs));
      outLines := outLines + e.value.lines;
      refs := refs + e.value.refs;
      i := i + 1;
    }
    assert tables[..|tables|] == tables;
    r := Ok(Emitted(outLines, refs));
  }

  lemma EmitTablesNext(tables: seq<Dict>, uuids: UuidMap, byId: ColumnIndex, i: nat, acc: Emitted)
    requires i < |tables| && EmitTables(tables[..i], uuids, byId) == Ok(acc)
    requires TableBlock(tables[i], uuids, byId).Ok?
    ensures var e := TableBlock(tables[i], uuids, byId).value;
            EmitTables(tables[..i + 1], uuids, byId) == Ok(Emitted(acc.lines + e.lines, acc.refs + e.refs))
  {
    assert tables[..i + 1][..i] == tables[..i] && tables[..i + 1][i] == tables[i];
  }

  lemma EmitTablesFail(tables: seq<Dict>, uuids: UuidMap, byId: ColumnIndex, i: nat, acc: Emitted)
    requires i < |tables| && EmitTables(tables[..i], uuids, byId) == Ok(acc)
    requires TableBlock(tables[i], uuids, byId).Err?
    ensures EmitTables(tables, uuids, byId) == Err(TableBlock(tables[i], uuids, byId).error)
  {
    assert tables[..i + 1][..i] == tables[..i] && tables[..i + 1][i] == tables[i];
    EmitTablesStop(tables, uuids, byId, i + 1);
  }

  lemma {:induction false} EmitTablesStop(tables: seq<Dict>, uuids: UuidMap, byId: ColumnIndex, n: nat)
    requires n <= |tables| && EmitTables(tables[..n], uuids, byId).Err?
    ensures EmitTables(tables, uuids, byId) == EmitTables(tables[..n], uuids, byId)
    decreases |tables|
  {
    if n < |tables| {
      var init := tables[..|tables| - 1];
      assert init[..n] == tables[..n];
      EmitTablesStop(init, uuids, byId, n);
    } else {
      assert tables[..n] == tables;
    }
  }
}
