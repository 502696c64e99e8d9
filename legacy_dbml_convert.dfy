/**
 * `index_by_uuid` and `to_dbml` of schemacrawler/convert_schemacrawler_to_dbml.py
 * as the program runs them: the nested `walk` writing into one dictionary, the
 * loop appending entries to the `tables` defaultdict, and the loops appending
 * to `lines` and `attrs`. Each method is proved to compute exactly what the
 * matching function of module LegacyDbml describes, raising the same exception
 * on malformed input. `sorted(tables.items())` stays the function SortedItems.
 */
module LegacyDbmlConvert {
  import opened Text
  import opened JsonValue
  import JsonDbml
  import opened LegacyDbml

  // ---------------------------------------------------------------- index_by_uuid

  /** The dictionary `index` that `walk` fills. */
  class UuidIndexer {
    var index: UuidIndex

    constructor()
      ensures index == map[]
    {
      index := map[];
    }

    /** `walk(o)`: records every object of the tree whose `@uuid` is a string, in walk order; a later object replaces an earlier one. */
    method Walk(o: Json)
      modifies this
      ensures index == Record(old(index), IndexWrites(Objects(o)))
      decreases o, 1
    {
      if o.JObj? {
        WalkObject(o);
      } else if o.JArr? {
        WalkItems(o);
      } else {
        assert IndexWrites(Objects(o)) == [];
      }
    }

    /** The dict branch: the object's own `@uuid`, then each member value in turn. */
    method WalkObject(o: Json)
      requires o.JObj?
      modifies this
      ensures index == Record(old(index), IndexWrites(Objects(o)))
      decreases o, 0
    {
      var fs := o.fields;
      var uid := JsonDbml.UuidOf(fs);
      MemberIndexWritesStart(o, index);
      if uid.JStr? {
        index := index[uid := fs];
      }
      var i := 0;
      while i < |fs|
        invariant 0 <= i <= |fs|
        invariant index == Record(old(index), MemberIndexWrites(o, i))
      {
        Walk(fs[i].1);
        MemberIndexWritesNext(o, i);
        RecordAppend(old(index), MemberIndexWrites(o, i), IndexWrites(Objects(fs[i].1)));
        i := i + 1;
      }
      MemberIndexWritesAll(o);
    }

    /** The list branch: each item in turn. */
    method WalkItems(o: Json)
      requires o.JArr?
      modifies this
      ensures index == Record(old(index), IndexWrites(Objects(o)))
      decreases o, 0
    {
      var xs := o.items;
      ItemIndexWritesEnds(o);
      var i := 0;
      while i < |xs|
        invariant 0 <= i <= |xs|
        invariant index == Record(old(index), ItemIndexWrites(o, i))
      {
        Walk(xs[i]);
        ItemIndexWritesNext(o, i);
        RecordAppend(old(index), ItemIndexWrites(o, i), IndexWrites(Objects(xs[i])));
        i := i + 1;
      }
    }
  }

  /** Lines 19-33: `index_by_uuid(obj)`. */
  method BuildIndex(obj: Json) returns (index: UuidIndex)
    ensures index == IndexByUuid(obj)
  {
    var indexer := new UuidIndexer();
    indexer.Walk(obj);
    index := indexer.index;
  }

  /** The writes made by the walk of an object itself and of its first `i` member values. */
  ghost function MemberIndexWrites(o: Json, i: nat): seq<(Json, Dict)>
    requires o.JObj? && i <= |o.fields|
  {
    IndexWrites([o.fields] + MemberObjects(o, o.fields[..i]))
  }

  /** The writes made by the walk of the first `i` items of a list. */
  ghost function ItemIndexWrites(o: Json, i: nat): seq<(Json, Dict)>
    requires o.JArr? && i <= |o.items|
  {
    IndexWrites(ItemObjects(o, o.items[..i]))
  }

  /** The object's own write comes first, made only when its `@uuid` is a string. */
  lemma MemberIndexWritesStart(o: Json, m: UuidIndex)
    requires o.JObj?
    ensures var uid := JsonDbml.UuidOf(o.fields);
            Record(m, MemberIndexWrites(o, 0)) == if uid.JStr? then m[uid := o.fields] else m
  {
    var fs := o.fields;
    var uid := JsonDbml.UuidOf(fs);
    assert [fs] + MemberObjects(o, fs[..0]) == [fs];
    assert [fs][..0] == [];
    var w := MemberIndexWrites(o, 0);
    assert w == if uid.JStr? then [(uid, fs)] else [];
    if uid.JStr? {
      RecordSnoc(m, [], (uid, fs));
      assert [] + [(uid, fs)] == w;
    }
  }

  lemma MemberIndexWritesNext(o: Json, i: nat)
    requires o.JObj? && i < |o.fields|
    ensures MemberIndexWrites(o, i + 1) == MemberIndexWrites(o, i) + IndexWrites(Objects(o.fields[i].1))
  {
    var fs := o.fields;
    var before := [fs] + MemberObjects(o, fs[..i]);
    MemberObjectsSnoc(o, fs, i);
    assert [fs] + MemberObjects(o, fs[..i + 1]) == before + Objects(fs[i].1);
    IndexWritesAppend(before, Objects(fs[i].1));
  }

  lemma MemberIndexWritesAll(o: Json)
    requires o.JObj?
    ensures MemberIndexWrites(o, |o.fields|) == IndexWrites(Objects(o))
  {
    assert o.fields[..|o.fields|] == o.fields;
  }

  lemma ItemIndexWritesNext(o: Json, i: nat)
    requires o.JArr? && i < |o.items|
    ensures ItemIndexWrites(o, i + 1) == ItemIndexWrites(o, i) + IndexWrites(Objects(o.items[i]))
  {
    ItemObjectsSnoc(o, o.items, i);
    IndexWritesAppend(ItemObjects(o, o.items[..i]), Objects(o.items[i]));
  }

  /** No writes before the first item, and all the writes of the list after the last. */
  lemma ItemIndexWritesEnds(o: Json)
    requires o.JArr?
    ensures ItemIndexWrites(o, 0) == []
    ensures ItemIndexWrites(o, |o.items|) == IndexWrites(Objects(o))
  {
    assert o.items[..0] == [];
    assert ItemObjects(o, o.items[..0]) == [];
    assert o.items[..|o.items|] == o.items;
  }

  // ---------------------------------------------------------------- collecting the columns

  /** Lines 99-119: the loop that appends each kept column's entry to `tables[(schema, table)]`. */
  method GroupColumns(columns: seq<Json>, index: UuidIndex) returns (r: Result<Grouping>)
    ensures r == Collect(columns, index)
  {
    ghost var kept: seq<(TableKey, ColumnEntry)> := [];
    var order: seq<TableKey> := [];
    var tables: map<TableKey, seq<ColumnEntry>> := map[];
    var i := 0;
    while i < |columns|
      invariant 0 <= i <= |columns|
      invariant Kept(columns[..i], index) == Ok(kept)
      invariant Grouping(order, tables) == GroupAll(kept)
    {
      var step := ColumnStep(columns[i], index);
      if step.Err? {
        KeptFail(columns, index, i, kept);
        return Err(step.error);
      }
      KeptNext(columns, index, i, kept);
      if step.value.Some? {
        var key := step.value.value.0;
        var entry := step.value.value.1;
        GroupAllSnoc(kept, key, entry);
        if key in tables {
          tables := tables[key := tables[key] + [entry]];
        } else {
          order := order + [key];
          tables := tables[key := [entry]];
        }
        kept := kept + [(key, entry)];
      }
      i := i + 1;
    }
    assert columns[..|columns|] == columns;
    r := Ok(Grouping(order, tables));
  }

  lemma GroupAllSnoc(kept: seq<(TableKey, ColumnEntry)>, key: TableKey, entry: ColumnEntry)
    ensures GroupAll(kept + [(key, entry)]) == AddEntry(GroupAll(kept), key, entry)
  {
    assert (kept + [(key, entry)])[..|kept|] == kept;
  }

  lemma KeptNext(columns: seq<Json>, index: UuidIndex, i: nat, kept: seq<(TableKey, ColumnEntry)>)
    requires i < |columns| && Kept(columns[..i], index) == Ok(kept)
    requires ColumnStep(columns[i], index).Ok?
    ensures var step := ColumnStep(columns[i], index).value;
            Kept(columns[..i + 1], index) == Ok(if step.Some? then kept + [step.value] else kept)
  {
    assert columns[..i + 1][..i] == columns[..i] && columns[..i + 1][i] == columns[i];
  }

  lemma KeptFail(columns: seq<Json>, index: UuidIndex, i: nat, kept: seq<(TableKey, ColumnEntry)>)
    requires i < |columns| && Kept(columns[..i], index) == Ok(kept)
    requires ColumnStep(columns[i], index).Err?
    ensures Collect(columns, index) == Err(ColumnStep(columns[i], index).error)
  {
    assert columns[..i + 1][..i] == columns[..i] && columns[..i + 1][i] == columns[i];
    KeptStop(columns, index, i + 1);
  }

  lemma {:induction false} KeptStop(columns: seq<Json>, index: UuidIndex, n: nat)
    requires n <= |columns| && Kept(columns[..n], index).Err?
    ensures Kept(columns, index) == Kept(columns[..n], index)
    decreases |columns|
  {
    if n < |columns| {
      var init := columns[..|columns| - 1];
      assert init[..n] == columns[..n];
      KeptStop(init, index, n);
    } else {
      assert columns[..n] == columns;
    }
  }

  // ---------------------------------------------------------------- emitting

  /** Lines 126-136: `attrs`, appended in the order `pk`, `unique`, `increment`, `not null`, `default`. */
  method AppendLegacyAttrs(c: ColumnEntry) returns (attrs: seq<string>)
    ensures attrs == LegacyAttrs(c)
  {
    ghost var p := if Truthy(c.pk) then ["pk"] else [];
    ghost var u := if Truthy(c.unique) then ["unique"] else [];
    ghost var inc := if Truthy(c.auto) then ["increment"] else [];
    ghost var nn := if !Truthy(c.nullable) then ["not null"] else [];
    attrs := [];
    if Truthy(c.pk) {
      attrs := attrs + ["pk"];
    }
    assert attrs == p;
    if Truthy(c.unique) {
      attrs := attrs + ["unique"];
    }
    assert attrs == p + u;
    if Truthy(c.auto) {
      attrs := attrs + ["increment"];
    }
    assert attrs == p + u + inc;
    if !Truthy(c.nullable) {
      attrs := attrs + ["not null"];
    }
    assert attrs == p + u + inc + nn;
    if ShowsDefault(c.default) {
      attrs := attrs + ["default: " + c.default.value];
    }
  }

  /** Lines 126-141: one column line; the note is built before the name is quoted. */
  method BuildEntryLine(c: ColumnEntry) returns (r: Result<string>)
    ensures r == EntryLine(c)
  {
    var attrs := AppendLegacyAttrs(c);
    var attrStr := if attrs == [] then "" else " [" + Join(attrs, ", ") + "]";
    var note := "";
    if Truthy(c.remarks) {
      if !c.remarks.JStr? {
        return Err(AttributeError);
      }
      note := " // " + EscapeDoubleQuotes(c.remarks.s);
    }
    var name := SafeIdent(c.name);
    if name.Err? {
      return Err(name.error);
    }
    r := Ok("  " + name.value + " " + c.typ + attrStr + note);
  }

  /** Lines 123-142: one table block: the header, a line per column in order, then `}`. */
  method BuildTableLines(k: TableKey, cols: seq<ColumnEntry>) returns (r: Result<seq<string>>)
    ensures r == TableLines(k, cols)
  {
    ghost var rs := MapResults(EntryLine, cols);
    var tname := k.0 + "." + k.1;
    var lines := ["Table " + IdentOf(tname) + " {"];
    ghost var body: seq<string> := [];
    assert rs[..0] == [];
    var j := 0;
    while j < |cols|
      invariant 0 <= j <= |cols|
      invariant AllOk(rs[..j]) == Ok(body)
      invariant lines == [Header(k)] + body
    {
      var line := BuildEntryLine(cols[j]);
      if line.Err? {
        AllOkFail(rs, j, body);
        return Err(line.error);
      }
      AllOkNext(rs, j, body);
      lines := lines + [line.value];
      body := body + [line.value];
      j := j + 1;
    }
    AllOkAll(rs, body);
    r := Ok(lines + ["}\n"]);
  }

  /** Lines 121-142: `lines`, one block per sorted table. */
  method EmitLines(items: seq<(TableKey, seq<ColumnEntry>)>) returns (r: Result<seq<string>>)
    ensures r == EmitItems(items)
  {
    ghost var rs := MapResults(ItemLines, items);
    ghost var blocks: seq<seq<string>> := [];
    var lines: seq<string> := [];
    assert rs[..0] == [];
    var i := 0;
    while i < |items|
      invariant 0 <= i <= |items|
      invariant AllOk(rs[..i]) == Ok(blocks)
      invariant lines == Concat(blocks)
    {
      var block := BuildTableLines(items[i].0, items[i].1);
      if block.Err? {
        AllOkFail(rs, i, blocks);
        return Err(block.error);
      }
      AllOkNext(rs, i, blocks);
      ConcatSnoc(blocks, block.value);
      lines := lines + block.value;
      blocks := blocks + [block.value];
      i := i + 1;
    }
    AllOkAll(rs, blocks);
    r := Ok(lines);
  }

  lemma ConcatSnoc(blocks: seq<seq<string>>, b: seq<string>)
    ensures Concat(blocks + [b]) == Concat(blocks) + b
  {
    assert (blocks + [b])[..|blocks|] == blocks;
  }

  // ---------------------------------------------------------------- to_dbml

  /** Lines 99-144 once the column list is known: collect, sort, emit, join. */
  method RenderDbml(columns: seq<Json>, index: UuidIndex) returns (r: Result<string>)
    ensures r == Render(columns, index)
  {
    var g := GroupColumns(columns, index);
    if g.Err? {
      return Err(g.error);
    }
    var lines := EmitLines(SortedItems(g.value));
    if lines.Err? {
      return Err(lines.error);
    }
    r := Ok(Join(lines.value, "\n"));
  }

  /** Lines 94-144: `to_dbml(input_json)`. */
  method BuildDbml(input: Json) returns (r: Result<string>)
    ensures r == ToDbml(input)
  {
    var index := BuildIndex(input);
    if !input.JObj? {
      return Err(AttributeError);
    }
    var columns := Iter(ColumnsValue(input.fields));
    if columns.Err? {
      return Err(columns.error);
    }
    r := RenderDbml(columns.value, index);
  }
}
