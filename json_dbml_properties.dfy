/**
 * What schemacrawler/json_dbml_converter.py promises about its output, proved
 * about the functions of module JsonDbml.
 */
module JsonDbmlProperties {
  import opened Text
  import opened JsonValue
  import opened JsonDbml

  // ---------------------------------------------------------------- unwrap

  /** `unwrap` changes a value exactly when it is a tagged container, and then gives its payload. */
  lemma UnwrapChangesOnlyContainers(x: Json)
    ensures Unwrap(x) == x <==> !IsJavaContainer(x)
    ensures IsJavaContainer(x) ==> Unwrap(x) == x.items[1]
  {
    if IsJavaContainer(x) {
      assert x.items[1] in x.items;
      assert x.items[1] < x;
    }
  }

  /** Unwrapping twice is the same as once exactly when the payload is not itself a tagged container. */
  lemma UnwrapIdempotentIff(x: Json)
    ensures Unwrap(Unwrap(x)) == Unwrap(x) <==> !IsJavaContainer(Unwrap(x))
  {
    UnwrapChangesOnlyContainers(Unwrap(x));
  }

  /** A container nested in a container: one `unwrap` leaves a tagged container behind. */
  lemma UnwrapNestedContainer()
    ensures var inner := JArr([JStr("java.util.ArrayList"), JArr([])]);
            var outer := JArr([JStr("java.util.ArrayList"), inner]);
            Unwrap(outer) == inner && Unwrap(Unwrap(outer)) != Unwrap(outer)
  {
    var inner := JArr([JStr("java.util.ArrayList"), JArr([])]);
    assert StartsWith("java.util.ArrayList", "java.util");
    UnwrapChangesOnlyContainers(inner);
  }

  // ---------------------------------------------------------------- the @uuid index

  /** After `collect_uuid_map`, every visited object with a truthy `@uuid` is in the index under that uuid. */
  lemma UuidMapCovers(data: Json, d: Dict)
    requires UuidMapOf(data).Ok?
    requires d in Objects(data) && Truthy(UuidOf(d))
    ensures UuidOf(d) in UuidMapOf(data).value
  {
    var ws := UuidWrites(Objects(data));
    UuidWritesCover(Objects(data), d);
    var i :| 0 <= i < |ws| && ws[i] == (UuidOf(d), d);
    RecordKeys(map[], ws);
  }

  /** The keys of the index are exactly the truthy `@uuid`s of the visited objects. */
  lemma UuidMapKeys(data: Json)
    requires UuidMapOf(data).Ok?
    ensures UuidMapOf(data).value.Keys == set d | d in Objects(data) && Truthy(UuidOf(d)) :: UuidOf(d)
  {
    var ds := Objects(data);
    var ws := UuidWrites(ds);
    RecordKeys(map[], ws);
    var written := set i | 0 <= i < |ws| :: ws[i].0;
    var uids := set d | d in ds && Truthy(UuidOf(d)) :: UuidOf(d);
    forall u | u in uids
      ensures u in written
    {
      var d :| d in ds && Truthy(UuidOf(d)) && UuidOf(d) == u;
      UuidWritesCover(ds, d);
      var i :| 0 <= i < |ws| && ws[i] == (UuidOf(d), d);
    }
    forall u | u in written
      ensures u in uids
    {
      var i :| 0 <= i < |ws| && ws[i].0 == u;
      assert ws[i].1 in ds;
    }
  }

  /** A uuid carried by several objects maps to the one the walk visits last. */
  lemma UuidMapLastWins(data: Json, i: nat)
    requires UuidMapOf(data).Ok?
    requires i < |UuidWrites(Objects(data))|
    requires var ws := UuidWrites(Objects(data));
             forall j :: i < j < |ws| ==> ws[j].0 != ws[i].0
    ensures var ws := UuidWrites(Objects(data));
            ws[i].0 in UuidMapOf(data).value && UuidMapOf(data).value[ws[i].0] == ws[i].1 && UuidOf(ws[i].1) == ws[i].0
  {
    RecordLastWins(map[], UuidWrites(Objects(data)), i);
  }

  // ---------------------------------------------------------------- data types

  /** The candidate names `resolve_datatype` tries, in order. */
  function TypeNameCandidates(d: Dict): seq<Json> {
    seq(|TypeNameKeys|, i requires 0 <= i < |TypeNameKeys| => Field(d, TypeNameKeys[i], JNull))
  }

  /**
   * `resolve_datatype` gives the first true type name of the object it reads,
   * or `'varchar'`; it reads an object only for an inline dict or a uuid string
   * that names one, so an unresolved uuid or any other value gives `'varchar'`.
   */
  lemma ResolveDatatypePriority(dtref: Json, uuids: UuidMap)
    ensures TypeSource(dtref, uuids).Some? <==> dtref.JObj? || (dtref.JStr? && dtref in uuids && uuids[dtref] != [])
    ensures TypeSource(dtref, uuids).Some? ==>
      ResolveDatatype(dtref, uuids) == FirstTruthy(TypeNameCandidates(TypeSource(dtref, uuids).value), JStr("varchar"))
    ensures TypeSource(dtref, uuids).None? ==> ResolveDatatype(dtref, uuids) == JStr("varchar")
  {
    if TypeSource(dtref, uuids).Some? {
      var d := TypeSource(dtref, uuids).value;
      var cs := TypeNameCandidates(d);
      assert cs == [Field(d, "name", JNull), Field(d, "database-specific-type-name", JNull), Field(d, "full-name", JNull)];
      var v := JStr("varchar");
      assert cs[1..] == [cs[1], cs[2]] && cs[1..][1..] == [cs[2]] && cs[1..][1..][1..] == [];
      assert FirstTruthy(cs[1..][1..], v) == Or(cs[2], v);
      assert FirstTruthy(cs[1..], v) == Or(cs[1], Or(cs[2], v));
      assert FirstTruthy(cs, v) == Or(cs[0], Or(cs[1], Or(cs[2], v)));
    }
  }

  /** The rendered type of a column is never the empty text. */
  lemma ResolvedTypeNotEmpty(dtref: Json, uuids: UuidMap)
    ensures PyStr(ResolveDatatype(dtref, uuids)) != ""
  {
    var r := ResolveDatatype(dtref, uuids);
    if r.JInt? {
      if r.n < 0 {
        assert |IntToDecimal(r.n)| >= 1;
      } else {
        assert |NatToDecimal(r.n)| >= 1;
      }
    }
  }

  // ---------------------------------------------------------------- identifiers

  /** Reads an emitted identifier back: a backtick-quoted name loses its backticks. */
  function IdentifierText(out: string): string {
    if |out| >= 2 && out[0] == '`' && out[|out| - 1] == '`' then out[1..|out| - 1] else out
  }

  /** A name is emitted unchanged exactly when it is a plain identifier, and otherwise in backticks. */
  lemma SanitizeIdentifierIff(s: string)
    ensures SanitizeIdentifier(JStr(s)) == Ok(s) <==> IsPlainIdentifier(s)
    ensures !IsPlainIdentifier(s) ==> SanitizeIdentifier(JStr(s)) == Ok("`" + s + "`")
  {
  }

  /** No name is lost: reading the emitted identifier back gives the name. */
  lemma SanitizeIdentifierRoundTrip(s: string)
    ensures IdentifierText(SanitizeIdentifier(JStr(s)).value) == s
  {
    if IsPlainIdentifier(s) {
      assert !(s[0] == '`');
    } else {
      var out := "`" + s + "`";
      assert out[1..|out| - 1] == s;
    }
  }

  /** `None` gives the empty text; any value other than a string or `None` raises `TypeError`. */
  lemma SanitizeIdentifierNonString(name: Json)
    ensures SanitizeIdentifier(name).Err? <==> !name.JStr? && name != JNull
    ensures name == JNull ==> SanitizeIdentifier(name) == Ok("")
  {
  }

  /** The pattern as written differs from a whole-text match exactly on a plain identifier followed by one newline. */
  lemma SanitizeAsWrittenDiffers(s: string)
    ensures SanitizeIdentifierAsWritten(JStr(s)) != SanitizeIdentifier(JStr(s)) <==>
      |s| >= 2 && s[|s| - 1] == '\n' && IsPlainIdentifier(s[..|s| - 1])
  {
    var quoted := "`" + s + "`";
    assert |quoted| != |s|;
    if |s| >= 2 && s[|s| - 1] == '\n' && IsPlainIdentifier(s[..|s| - 1]) {
      assert !IdentChar(s[|s| - 1]);
      assert !IsPlainIdentifier(s);
      assert RegexAccepts(s);
      assert SanitizeIdentifierAsWritten(JStr(s)) == Ok(s);
      assert SanitizeIdentifier(JStr(s)) == Ok(quoted);
    } else if IsPlainIdentifier(s) {
      assert RegexAccepts(s);
    } else {
      assert !RegexAccepts(s);
    }
  }

  /** The name `users` followed by a newline passes the pattern as written and is emitted without backticks. */
  lemma SanitizeAsWrittenKeepsNewline()
    ensures SanitizeIdentifierAsWritten(JStr("users\n")) == Ok("users\n")
    ensures SanitizeIdentifier(JStr("users\n")) == Ok("`users\n`")
  {
    assert IsPlainIdentifier("users");
    assert "users\n"[..5] == "users";
    assert !IdentChar("users\n"[5]);
    assert "`" + "users\n" + "`" == "`users\n`";
  }

  // ---------------------------------------------------------------- defaults

  /** No default is emitted for `None` or `''` only; an emitted default is one backticked line. */
  lemma FormatDefaultShape(val: Json)
    ensures FormatDefault(val).None? <==> val == JNull || val == JStr("")
    ensures FormatDefault(val).Some? ==>
      var t := FormatDefault(val).value;
      var s := PyStr(val);
      && |t| == |s| + 2 && t[0] == '`' && t[|t| - 1] == '`'
      && (forall i :: 0 <= i < |s| ==> t[i + 1] == (if s[i] == '\n' then ' ' else s[i]))
      && '\n' !in t
  {
    if FormatDefault(val).Some? {
      var s := PyStr(val);
      ReplaceCharPointwise(s, '\n', ' ');
      var t := FormatDefault(val).value;
      assert t == "`" + ReplaceChar(s, '\n', " ") + "`";
      forall i | 0 <= i < |t|
        ensures t[i] != '\n'
      {
        if 0 < i < |t| - 1 {
          assert t[i] == ReplaceChar(s, '\n', " ")[i - 1];
        }
      }
    }
  }

  // ---------------------------------------------------------------- ordering columns

  lemma KeyLeqReflexive(k: SortKey)
    requires k != Incomparable
    ensures KeyLeq(k, k)
  {
    if k.StrKey? {
      LessIrreflexive(k.s);
    }
  }

  lemma KeyLeqTotal(a: SortKey, b: SortKey, ints: bool)
    requires OfKind(a, ints) && OfKind(b, ints)
    ensures !KeyLeq(a, b) ==> KeyLeq(b, a)
  {
    if !ints && !KeyLeq(a, b) {
      LessAsymmetric(b.s, a.s);
    }
  }

  lemma KeyLeqTransitive(a: SortKey, b: SortKey, c: SortKey, ints: bool)
    requires OfKind(a, ints) && OfKind(b, ints) && OfKind(c, ints)
    requires KeyLeq(a, b) && KeyLeq(b, c)
    ensures KeyLeq(a, c)
  {
    if !ints && Less(c.s, a.s) {
      if a.s == b.s {
      } else {
        LessTotal(a.s, b.s);
        LessTransitive(c.s, a.s, b.s);
      }
    }
  }

  /** Every key in `s` is at least `k`. */
  predicate AllAtLeast(k: SortKey, s: seq<Dict>) {
    forall i :: 0 <= i < |s| ==> KeyLeq(k, KeyOf(s[i]))
  }

  lemma {:induction false} InsertKeepsBound(k: SortKey, c: Dict, s: seq<Dict>)
    requires KeyLeq(k, KeyOf(c)) && AllAtLeast(k, s)
    ensures AllAtLeast(k, InsertByKey(c, s))
  {
    if s != [] && !KeyLeq(KeyOf(c), KeyOf(s[0])) {
      InsertKeepsBound(k, c, s[1..]);
    }
  }

  lemma {:induction false} InsertKeepsKind(c: Dict, s: seq<Dict>, ints: bool)
    requires OfKind(KeyOf(c), ints) && AllOfKind(s, ints)
    ensures AllOfKind(InsertByKey(c, s), ints)
  {
    if s != [] && !KeyLeq(KeyOf(c), KeyOf(s[0])) {
      InsertKeepsKind(c, s[1..], ints);
    }
  }

  lemma {:induction false} InsertSorted(c: Dict, s: seq<Dict>, ints: bool)
    requires OfKind(KeyOf(c), ints) && AllOfKind(s, ints) && SortedByKey(s)
    ensures SortedByKey(InsertByKey(c, s))
  {
    if s == [] {
    } else if KeyLeq(KeyOf(c), KeyOf(s[0])) {
      forall j | 1 <= j < |s| + 1
        ensures KeyLeq(KeyOf(c), KeyOf(([c] + s)[j]))
      {
        if j > 1 {
          KeyLeqTransitive(KeyOf(c), KeyOf(s[0]), KeyOf(s[j - 1]), ints);
        }
      }
    } else {
      InsertSorted(c, s[1..], ints);
      KeyLeqTotal(KeyOf(c), KeyOf(s[0]), ints);
      forall j | 0 <= j < |s[1..]|
        ensures KeyLeq(KeyOf(s[0]), KeyOf(s[1..][j]))
      {
      }
      InsertKeepsBound(KeyOf(s[0]), c, s[1..]);
    }
  }

  lemma {:induction false} SortByKeySorted(s: seq<Dict>, ints: bool)
    requires AllOfKind(s, ints)
    ensures SortedByKey(SortByKey(s)) && AllOfKind(SortByKey(s), ints)
  {
    if s != [] {
      SortByKeySorted(s[1..], ints);
      InsertSorted(s[0], SortByKey(s[1..]), ints);
      InsertKeepsKind(s[0], SortByKey(s[1..]), ints);
    }
  }

  lemma WithKeyCons(c: Dict, s: seq<Dict>, k: SortKey)
    ensures WithKey([c] + s, k) == (if KeyOf(c) == k then [c] else []) + WithKey(s, k)
  {
    assert ([c] + s)[0] == c && ([c] + s)[1..] == s;
  }

  lemma {:induction false} InsertStable(c: Dict, s: seq<Dict>, k: SortKey)
    requires KeyOf(c) != Incomparable
    ensures WithKey(InsertByKey(c, s), k) == (if KeyOf(c) == k then [c] else []) + WithKey(s, k)
    decreases |s|
  {
    if s == [] || KeyLeq(KeyOf(c), KeyOf(s[0])) {
      WithKeyCons(c, s, k);
    } else {
      InsertStable(c, s[1..], k);
      InsertPast(c, s, k);
    }
  }

  /** Inserting past the first column moves that column ahead of `c`, which keeps a different key. */
  lemma InsertPast(c: Dict, s: seq<Dict>, k: SortKey)
    requires KeyOf(c) != Incomparable
    requires s != [] && !KeyLeq(KeyOf(c), KeyOf(s[0]))
    requires WithKey(InsertByKey(c, s[1..]), k) == (if KeyOf(c) == k then [c] else []) + WithKey(s[1..], k)
    ensures WithKey(InsertByKey(c, s), k) == (if KeyOf(c) == k then [c] else []) + WithKey(s, k)
  {
    var rest := InsertByKey(c, s[1..]);
    InsertPastFirst(c, s);
    WithKeyFirst([s[0]] + rest, k);
    assert ([s[0]] + rest)[0] == s[0] && ([s[0]] + rest)[1..] == rest;
    WithKeyFirst(s, k);
    PassedKeyDiffers(c, s[0], k);
    SwapEmpty(if KeyOf(s[0]) == k then [s[0]] else [], if KeyOf(c) == k then [c] else [], WithKey(s[1..], k));
  }

  lemma InsertPastFirst(c: Dict, s: seq<Dict>)
    requires s != [] && !KeyLeq(KeyOf(c), KeyOf(s[0]))
    ensures InsertByKey(c, s) == [s[0]] + InsertByKey(c, s[1..])
  {
  }

  lemma WithKeyFirst(s: seq<Dict>, k: SortKey)
    requires s != []
    ensures WithKey(s, k) == (if KeyOf(s[0]) == k then [s[0]] else []) + WithKey(s[1..], k)
  {
  }

  lemma PassedKeyDiffers(c: Dict, h: Dict, k: SortKey)
    requires KeyOf(c) != Incomparable
    requires !KeyLeq(KeyOf(c), KeyOf(h))
    ensures KeyOf(c) == k ==> KeyOf(h) != k
  {
    if KeyOf(c) == k {
      KeyLeqReflexive(k);
    }
  }

  lemma SwapEmpty(a: seq<Dict>, b: seq<Dict>, x: seq<Dict>)
    requires a == [] || b == []
    ensures a + (b + x) == b + (a + x)
  {
    if a == [] {
      assert a + (b + x) == b + x == b + (a + x);
    } else {
      assert a + (b + x) == a + x == b + (a + x);
    }
  }

  lemma {:induction false} SortByKeyStable(s: seq<Dict>, k: SortKey, ints: bool)
    requires AllOfKind(s, ints)
    ensures WithKey(SortByKey(s), k) == WithKey(s, k)
  {
    if s != [] {
      SortByKeyStable(s[1..], k, ints);
      InsertStable(s[0], SortByKey(s[1..]), k);
    }
  }

  /**
   * `cols.sort(...)` succeeds exactly when the keys can be compared, and then
   * gives the same columns in ascending key order, columns with equal keys in
   * their original order.
   */
  lemma SortColumnsCorrect(cols: seq<Dict>)
    ensures SortColumns(cols).Ok? <==> |cols| < 2 || Comparable(cols)
    ensures SortColumns(cols).Ok? ==>
      var r := SortColumns(cols).value;
      && multiset(r) == multiset(cols)
      && SortedByKey(r)
      && forall k :: WithKey(r, k) == WithKey(cols, k)
  {
    if SortColumns(cols).Ok? {
      if |cols| < 2 {
        assert |SortByKey(cols)| == |cols|;
        if |cols| == 1 {
          assert SortByKey(cols) == InsertByKey(cols[0], []) == cols;
        }
      } else {
        var ints := AllOfKind(cols, true);
        SortByKeySorted(cols, ints);
        forall k
          ensures WithKey(SortByKey(cols), k) == WithKey(cols, k)
        {
          SortByKeyStable(cols, k, ints);
        }
      }
    }
  }

  /** A missing ordinal sorts as 0. */
  lemma MissingOrdinalIsZero(c: Dict)
    ensures Lookup(c, "ordinal-position").None? ==> KeyOf(c) == IntKey(0)
  {
  }

  // ---------------------------------------------------------------- selecting columns

  /** `get_table_obj(entry)` gives `t`: the entry is `t` itself, or a uuid naming `t`. */
  predicate NamesTable(entry: Json, t: Dict, uuids: UuidMap) {
    entry == JObj(t) || (!entry.JObj? && entry in uuids && uuids[entry] == t)
  }

  /**
   * Line 63: the table list holds exactly the non-empty objects the entries
   * name, inline or by uuid; only an entry that is a list raises (`TypeError`,
   * from using it as a key of `uuid_map`).
   */
  lemma {:induction false} TableObjectsExact(entries: seq<Json>, uuids: UuidMap)
    ensures TableObjects(entries, uuids).Ok? <==> forall i :: 0 <= i < |entries| ==> !entries[i].JArr?
    ensures TableObjects(entries, uuids).Err? ==> TableObjects(entries, uuids).error == TypeError
    ensures TableObjects(entries, uuids).Ok? ==>
      forall t :: t in TableObjects(entries, uuids).value <==>
        t != [] && exists i :: 0 <= i < |entries| && NamesTable(entries[i], t, uuids)
    decreases |entries|
  {
    if entries != [] {
      var n := |entries| - 1;
      TableObjectsExact(entries[..n], uuids);
      assert forall i :: 0 <= i < n ==> entries[..n][i] == entries[i];
      if TableObjects(entries, uuids).Ok? {
        var ts := TableObjects(entries, uuids).value;
        var init := TableObjects(entries[..n], uuids).value;
        forall t | t in ts
          ensures t != [] && exists i :: 0 <= i < |entries| && NamesTable(entries[i], t, uuids)
        {
          if t !in init {
            assert NamesTable(entries[n], t, uuids);
          } else {
            var i :| 0 <= i < n && NamesTable(entries[..n][i], t, uuids);
          }
        }
        forall t | t != [] && exists i :: 0 <= i < |entries| && NamesTable(entries[i], t, uuids)
          ensures t in ts
        {
          var i :| 0 <= i < |entries| && NamesTable(entries[i], t, uuids);
          if i < n {
            assert NamesTable(entries[..n][i], t, uuids);
          }
        }
      }
    }
  }

  /**
   * The columns of a table are exactly the indexed columns its ids name, and
   * the lookup fails exactly when some id is a list or an object.
   */
  lemma {:induction false} FindColumnsExact(ids: seq<Json>, byId: ColumnIndex)
    ensures FindColumns(ids, byId).Ok? <==> forall i :: 0 <= i < |ids| ==> Hashable(ids[i])
    ensures FindColumns(ids, byId).Ok? ==>
      var cs := FindColumns(ids, byId).value;
      && (forall c :: c in cs <==> exists i :: 0 <= i < |ids| && ids[i] in byId && byId[ids[i]] == c)
    decreases |ids|
  {
    if ids != [] {
      var n := |ids| - 1;
      FindColumnsExact(ids[..n], byId);
      assert forall i :: 0 <= i < n ==> ids[..n][i] == ids[i];
      if FindColumns(ids, byId).Ok? {
        var cs := FindColumns(ids, byId).value;
        var init := FindColumns(ids[..n], byId).value;
        forall c | c in cs
          ensures exists i :: 0 <= i < |ids| && ids[i] in byId && byId[ids[i]] == c
        {
          if c !in init {
            assert ids[n] in byId && byId[ids[n]] == c;
          } else {
            var i :| 0 <= i < n && ids[..n][i] in byId && byId[ids[..n][i]] == c;
          }
        }
        forall c | exists i :: 0 <= i < |ids| && ids[i] in byId && byId[ids[i]] == c
          ensures c in cs
        {
          var i :| 0 <= i < |ids| && ids[i] in byId && byId[ids[i]] == c;
          if i < n {
            assert ids[..n][i] in byId && byId[ids[..n][i]] == c;
          }
        }
      }
    }
  }

  /** An id whose name lookup does not raise: hashable and, when it names a column, naming one with a `name`. */
  predicate NameResolves(id: Json, byId: ColumnIndex) {
    Hashable(id) && (id in byId ==> Lookup(byId[id], "name").Some?)
  }

  /**
   * The names are exactly the `name` fields of the indexed columns the ids
   * name, and they exist exactly when every id resolves.
   */
  lemma {:induction false} ColumnNamesExact(ids: seq<Json>, byId: ColumnIndex)
    ensures ColumnNames(ids, byId).Ok? <==> forall i :: 0 <= i < |ids| ==> NameResolves(ids[i], byId)
    ensures ColumnNames(ids, byId).Ok? ==>
      var ns := ColumnNames(ids, byId).value;
      forall m :: m in ns <==> exists i :: 0 <= i < |ids| && ids[i] in byId && Lookup(byId[ids[i]], "name") == Some(m)
    decreases |ids|
  {
    if ids != [] {
      var n := |ids| - 1;
      var init := ids[..n];
      ColumnNamesExact(init, byId);
      assert forall i :: 0 <= i < n ==> init[i] == ids[i];
      var r := ColumnNames(ids, byId);
      if r.Ok? {
        var ns := r.value;
        var prev := ColumnNames(init, byId).value;
        forall m | m in ns
          ensures exists i :: 0 <= i < |ids| && ids[i] in byId && Lookup(byId[ids[i]], "name") == Some(m)
        {
          if m !in prev {
            assert ids[n] in byId && Lookup(byId[ids[n]], "name") == Some(m);
          } else {
            var i :| 0 <= i < n && init[i] in byId && Lookup(byId[init[i]], "name") == Some(m);
          }
        }
        forall m | exists i :: 0 <= i < |ids| && ids[i] in byId && Lookup(byId[ids[i]], "name") == Some(m)
          ensures m in ns
        {
          var i :| 0 <= i < |ids| && ids[i] in byId && Lookup(byId[ids[i]], "name") == Some(m);
          if i < n {
            assert init[i] in byId && Lookup(byId[init[i]], "name") == Some(m);
          }
        }
      }
    }
  }

  /**
   * The first id that does not resolve decides the exception: `TypeError` for
   * a list or an object, `KeyError` for a column without a `name`.
   */
  lemma {:induction false} ColumnNamesError(ids: seq<Json>, byId: ColumnIndex)
    ensures ColumnNames(ids, byId).Err? ==>
      exists i :: 0 <= i < |ids| && !NameResolves(ids[i], byId) && (forall j :: 0 <= j < i ==> NameResolves(ids[j], byId))
        && ColumnNames(ids, byId).error == (if Hashable(ids[i]) then KeyError else TypeError)
    decreases |ids|
  {
    if ids != [] && ColumnNames(ids, byId).Err? {
      var n := |ids| - 1;
      var init := ids[..n];
      assert forall i :: 0 <= i < n ==> init[i] == ids[i];
      if ColumnNames(init, byId).Err? {
        ColumnNamesError(init, byId);
        var i :| 0 <= i < n && !NameResolves(init[i], byId) && (forall j :: 0 <= j < i ==> NameResolves(init[j], byId))
          && ColumnNames(init, byId).error == (if Hashable(init[i]) then KeyError else TypeError);
        assert !NameResolves(ids[i], byId) && forall j :: 0 <= j < i ==> NameResolves(ids[j], byId);
      } else {
        ColumnNamesExact(init, byId);
        assert !NameResolves(ids[n], byId) && forall j :: 0 <= j < n ==> NameResolves(ids[j], byId);
      }
    }
  }

  // ---------------------------------------------------------------- column attributes

  /** Which attribute a text is: `pk`, `not null`, `unique`, a default, a note. */
  function AttrKind(a: string): nat {
    if a == "pk" then 0
    else if a == "not null" then 1
    else if a == "unique" then 2
    else if StartsWith(a, "default: ") then 3
    else if StartsWith(a, "note: ") then 4
    else 5
  }

  /** The kinds of the attributes, as `kind` ranks them, strictly increase and stay below `bound`. */
  predicate KindsIncreaseBelow(kind: string -> nat, attrs: seq<string>, bound: nat)
    decreases |attrs|
  {
    attrs == [] || (kind(attrs[|attrs| - 1]) < bound && KindsIncreaseBelow(kind, attrs[..|attrs| - 1], kind(attrs[|attrs| - 1])))
  }

  lemma {:induction false} KindsIncreasePairwise(kind: string -> nat, attrs: seq<string>, bound: nat)
    requires KindsIncreaseBelow(kind, attrs, bound)
    ensures forall i, j :: 0 <= i < j < |attrs| ==> kind(attrs[i]) < kind(attrs[j]) < bound
    decreases |attrs|
  {
    if attrs != [] {
      var n := |attrs| - 1;
      KindsIncreasePairwise(kind, attrs[..n], kind(attrs[n]));
      assert forall i :: 0 <= i < n ==> attrs[..n][i] == attrs[i];
      forall i | 0 <= i < n
        ensures kind(attrs[i]) < kind(attrs[n])
      {
        if i < n - 1 {
          assert kind(attrs[..n][i]) < kind(attrs[..n][n - 1]);
        } else {
          assert KindsIncreaseBelow(kind, attrs[..n], kind(attrs[n]));
        }
      }
    }
  }

  lemma KindsExtend(kind: string -> nat, attrs: seq<string>, extra: seq<string>, k: nat)
    requires KindsIncreaseBelow(kind, attrs, k)
    requires |extra| <= 1 && forall a :: a in extra ==> kind(a) == k
    ensures KindsIncreaseBelow(kind, attrs + extra, k + 1)
  {
    if extra != [] {
      assert (attrs + extra)[..|attrs|] == attrs;
    } else {
      assert attrs + extra == attrs;
      KindsRaiseBound(kind, attrs, k, k + 1);
    }
  }

  lemma KindsRaiseBound(kind: string -> nat, attrs: seq<string>, k: nat, k': nat)
    requires KindsIncreaseBelow(kind, attrs, k) && k <= k'
    ensures KindsIncreaseBelow(kind, attrs, k')
  {
  }

  /** Appending an optional attribute of kind `k` keeps the kinds increasing. */
  lemma ExtendWith(kind: string -> nat, attrs: seq<string>, present: bool, a: string, k: nat)
    requires KindsIncreaseBelow(kind, attrs, k) && kind(a) == k
    ensures KindsIncreaseBelow(kind, attrs + (if present then [a] else []), k + 1)
  {
    if present {
      assert (attrs + [a])[..|attrs|] == attrs;
    } else {
      assert attrs + [] == attrs;
      KindsRaiseBound(kind, attrs, k, k + 1);
    }
  }

  lemma DefaultKind(v: string)
    ensures AttrKind("default: " + v) == 3
  {
    var a := "default: " + v;
    assert a[..9] == "default: " && a[0] == 'd';
  }

  lemma NoteKind(note: string)
    ensures AttrKind("note: '" + DoubleQuotes(note) + "'") == 4
  {
    var a := "note: '" + DoubleQuotes(note) + "'";
    assert a[..6] == "note: " && a[0] == 'n' && a[3] == 'e' && "not null"[3] == ' ';
  }

  lemma KeywordKind()
    ensures AttrKind("pk") == 0 && AttrKind("not null") == 1 && AttrKind("unique") == 2
  {
    assert "not null" != "pk" && "unique" != "pk" && "unique" != "not null";
  }

  lemma KeywordKinds(isPk: bool, notNull: bool, unique: bool)
    ensures KindsIncreaseBelow(AttrKind, (if isPk then ["pk"] else []) + (if notNull then ["not null"] else []) + (if unique then ["unique"] else []), 3)
  {
    var p := if isPk then ["pk"] else [];
    var nn := if notNull then ["not null"] else [];
    KeywordKind();
    ExtendWith(AttrKind, [], isPk, "pk", 0);
    assert [] + p == p;
    ExtendWith(AttrKind, p, notNull, "not null", 1);
    ExtendWith(AttrKind, p + nn, unique, "unique", 2);
  }

  lemma ValueKinds(a: seq<string>, dval: Option<string>, note: string)
    requires KindsIncreaseBelow(AttrKind, a, 3)
    ensures KindsIncreaseBelow(AttrKind, a + (if dval.Some? then ["default: " + dval.value] else []) + (if note != "" then ["note: '" + DoubleQuotes(note) + "'"] else []), 5)
  {
    var df := if dval.Some? then ["default: " + dval.value] else [];
    var nt := if note != "" then ["note: '" + DoubleQuotes(note) + "'"] else [];
    if dval.Some? {
      DefaultKind(dval.value);
    }
    if note != "" {
      NoteKind(note);
    }
    assert KindsIncreaseBelow(AttrKind, a + df, 4) by {
      KindsExtend(AttrKind, a, df, 3);
    }
    KindsExtend(AttrKind, a + df, nt, 4);
  }

  /** The attributes come in the order `pk`, `not null`, `unique`, `default`, `note`, each at most once. */
  lemma AttrListOrder(isPk: bool, notNull: bool, unique: bool, dval: Option<string>, note: string)
    ensures var attrs := AttrList(isPk, notNull, unique, dval, note);
            forall i, j :: 0 <= i < j < |attrs| ==> AttrKind(attrs[i]) < AttrKind(attrs[j]) < 5
  {
    KeywordKinds(isPk, notNull, unique);
    ValueKinds((if isPk then ["pk"] else []) + (if notNull then ["not null"] else []) + (if unique then ["unique"] else []), dval, note);
    KindsIncreasePairwise(AttrKind, AttrList(isPk, notNull, unique, dval, note), 5);
  }

  /** The keyword attributes are present exactly when their conditions hold. */
  lemma AttrListMembers(isPk: bool, notNull: bool, unique: bool, dval: Option<string>, note: string)
    ensures var attrs := AttrList(isPk, notNull, unique, dval, note);
            && ("pk" in attrs <==> isPk)
            && ("not null" in attrs <==> notNull)
            && ("unique" in attrs <==> unique)
  {
    var df := if dval.Some? then ["default: " + dval.value] else [];
    var nt := if note != "" then ["note: '" + DoubleQuotes(note) + "'"] else [];
    forall a | a in df + nt
      ensures a != "pk" && a != "not null" && a != "unique"
    {
      if a in df {
        assert a[0] == 'd';
      } else {
        assert a[0] == 'n' && a[3] == 'e' && "not null"[3] == ' ';
      }
    }
    var keywords := (if isPk then ["pk"] else []) + (if notNull then ["not null"] else []) + (if unique then ["unique"] else []);
    KeywordMembers(isPk, notNull, unique);
    assert AttrList(isPk, notNull, unique, dval, note) == keywords + df + nt;
  }

  lemma KeywordMembers(isPk: bool, notNull: bool, unique: bool)
    ensures var keywords := (if isPk then ["pk"] else []) + (if notNull then ["not null"] else []) + (if unique then ["unique"] else []);
            && ("pk" in keywords <==> isPk)
            && ("not null" in keywords <==> notNull)
            && ("unique" in keywords <==> unique)
  {
    assert "pk" != "not null" && "pk" != "unique" && "not null" != "unique";
  }

  /**
   * `pk` is attached exactly to the name of a one-column primary key, `unique`
   * only to a unique column that is not a primary-key column, and the
   * attributes keep their order.
   */
  lemma ColumnAttrsKeys(c: Dict, pkCols: seq<Json>)
    requires ColumnAttrs(c, pkCols).Ok?
    ensures var attrs := ColumnAttrs(c, pkCols).value;
            var cname := Field(c, "name", JNull);
            && ("pk" in attrs <==> cname in pkCols && |pkCols| == 1)
            && ("unique" in attrs <==> Truthy(Field(c, "part-of-unique-index", JBool(false))) && cname !in pkCols)
            && ("not null" in attrs <==> !Truthy(Field(c, "nullable", JBool(true))))
            && forall i, j :: 0 <= i < j < |attrs| ==> AttrKind(attrs[i]) < AttrKind(attrs[j])
  {
    var cname := Field(c, "name", JNull);
    var isPk := cname in pkCols && |pkCols| == 1;
    var notNull := !Truthy(Field(c, "nullable", JBool(true)));
    var unique := Truthy(Field(c, "part-of-unique-index", JBool(false))) && cname !in pkCols;
    var dval := FormatDefault(Field(c, "default-value", JNull));
    var note := RemarkText(Field(c, "remarks", JNull)).value;
    assert ColumnAttrs(c, pkCols).value == AttrList(isPk, notNull, unique, dval, note);
    AttrListMembers(isPk, notNull, unique, dval, note);
    AttrListOrder(isPk, notNull, unique, dval, note);
  }

  /** The literal between the quotes of a `note: '...'` attribute, read back. */
  function NoteText(a: string): string
    requires |a| >= 8
  {
    UndoubleQuotes(a[7..|a| - 1])
  }

  /**
   * A remark that is not blank becomes the last attribute, `note: '...'`: its
   * single quotes come in pairs, so the literal ends at the closing quote, and
   * the stripped remark reads back from it.
   */
  lemma ColumnNoteRoundTrip(c: Dict, pkCols: seq<Json>)
    requires ColumnAttrs(c, pkCols).Ok?
    ensures RemarkText(Field(c, "remarks", JNull)).Ok?
    ensures var note := RemarkText(Field(c, "remarks", JNull)).value;
            var attrs := ColumnAttrs(c, pkCols).value;
            note != "" ==> |attrs| >= 1 && |attrs[|attrs| - 1]| >= 8 && NoteText(attrs[|attrs| - 1]) == note
    ensures var note := RemarkText(Field(c, "remarks", JNull)).value;
            var attrs := ColumnAttrs(c, pkCols).value;
            note != "" ==> |attrs| >= 1 && exists t ::
              attrs[|attrs| - 1] == "note: '" + t + "'" && QuotesPaired(t) && UndoubleQuotes(t) == note
  {
    var note := RemarkText(Field(c, "remarks", JNull)).value;
    if note != "" {
      var attrs := ColumnAttrs(c, pkCols).value;
      var a := "note: '" + DoubleQuotes(note) + "'";
      assert attrs[|attrs| - 1] == a;
      assert a[7..|a| - 1] == DoubleQuotes(note);
      UndoubleAfterDouble(note);
      DoubledQuotesPaired(note);
      assert |DoubleQuotes(note)| >= 1 by {
        assert DoubleQuotes(note) == (if note[0] == '\'' then "''" else [note[0]]) + DoubleQuotes(note[1..]);
      }
    }
  }

  /** A table remark that is not blank gives one `Note: '...'` line whose quotes come in pairs and which reads back as the remark. */
  lemma TableNoteRoundTrip(note: string)
    ensures note == "" ==> NoteLines(note) == []
    ensures note != "" ==> exists t ::
      NoteLines(note) == ["  Note: '" + t + "'"] && QuotesPaired(t) && UndoubleQuotes(t) == note
  {
    UndoubleAfterDouble(note);
    DoubledQuotesPaired(note);
  }

  // ---------------------------------------------------------------- indexes

  /** A line of the `indexes` block naming the composite primary key. */
  predicate IsPkLine(l: string) {
    StartsWith(l, "  (") && EndsWith(l, ") [pk]")
  }

  /** A line of the `indexes` block naming a unique index. */
  predicate IsUniqueLine(l: string) {
    StartsWith(l, "  (") && EndsWith(l, ") [unique]")
  }

  lemma PkLineIsNotUniqueLine(l: string)
    ensures IsPkLine(l) ==> !IsUniqueLine(l)
  {
    if IsPkLine(l) {
      assert l[|l| - 2] == l[|l| - 6..][4] == 'k';
    }
  }

  /** An index contributes a line exactly when it is unique, has columns and is not the primary key. */
  lemma UniqueIndexLineKept(idx: Dict, pkId: Json, byId: ColumnIndex)
    ensures UniqueIndexLine(idx, pkId, byId) == Ok(None) <==> !KeepsIndex(idx, pkId)
    ensures UniqueIndexLine(idx, pkId, byId).Ok? && UniqueIndexLine(idx, pkId, byId).value.Some? ==>
      IsUniqueLine(UniqueIndexLine(idx, pkId, byId).value.value)
  {
    var r := UniqueIndexLine(idx, pkId, byId);
    if r.Ok? && r.value.Some? {
      var l := r.value.value;
      assert l[|l| - 10..] == ") [unique]";
      assert l[..3] == "  (";
    }
  }

  /** An indexed object whose `@class`, `''` when missing, is a string ending in `MutableIndex`. */
  predicate IsIndexObject(o: Dict) {
    Field(o, "@class", JStr("")).JStr? && EndsWith(Field(o, "@class", JStr("")).s, "MutableIndex")
  }

  /** An id the filter of line 112 reads without raising: hashable and, when indexed, with a string `@class`. */
  predicate ClassReadable(id: Json, uuids: UuidMap) {
    Hashable(id) && (id in uuids ==> Field(uuids[id], "@class", JStr("")).JStr?)
  }

  /**
   * The index entries are exactly the indexed objects the ids name whose class
   * name ends in `MutableIndex`, and they exist exactly when every id can be read.
   */
  lemma {:induction false} IndexEntriesAreIndexes(ids: seq<Json>, uuids: UuidMap)
    ensures IndexEntries(ids, uuids).Ok? <==> forall i :: 0 <= i < |ids| ==> ClassReadable(ids[i], uuids)
    ensures IndexEntries(ids, uuids).Ok? ==> forall e :: e in IndexEntries(ids, uuids).value ==>
      e in uuids.Values && Field(e, "@class", JStr("")).JStr? && EndsWith(Field(e, "@class", JStr("")).s, "MutableIndex")
    ensures IndexEntries(ids, uuids).Ok? ==>
      var es := IndexEntries(ids, uuids).value;
      forall e :: e in es <==> exists i :: 0 <= i < |ids| && ids[i] in uuids && uuids[ids[i]] == e && IsIndexObject(e)
    decreases |ids|
  {
    if ids != [] {
      var n := |ids| - 1;
      var init := ids[..n];
      IndexEntriesAreIndexes(init, uuids);
      assert forall i :: 0 <= i < n ==> init[i] == ids[i];
      var r := IndexEntries(ids, uuids);
      if r.Ok? {
        var es := r.value;
        var prev := IndexEntries(init, uuids).value;
        forall e | e in es
          ensures exists i :: 0 <= i < |ids| && ids[i] in uuids && uuids[ids[i]] == e && IsIndexObject(e)
        {
          if e !in prev {
            assert ids[n] in uuids && uuids[ids[n]] == e && IsIndexObject(e);
          } else {
            var i :| 0 <= i < n && init[i] in uuids && uuids[init[i]] == e && IsIndexObject(e);
          }
        }
        forall e | exists i :: 0 <= i < |ids| && ids[i] in uuids && uuids[ids[i]] == e && IsIndexObject(e)
          ensures e in es
        {
          var i :| 0 <= i < |ids| && ids[i] in uuids && uuids[ids[i]] == e && IsIndexObject(e);
          if i < n {
            assert init[i] in uuids && uuids[init[i]] == e && IsIndexObject(e);
          }
        }
      }
    }
  }

  /**
   * The first id that cannot be read decides the exception: `TypeError` for a
   * list or an object id, `AttributeError` for an object whose `@class` is not
   * a string.
   */
  lemma {:induction false} IndexEntriesError(ids: seq<Json>, uuids: UuidMap)
    ensures IndexEntries(ids, uuids).Err? ==>
      exists i :: 0 <= i < |ids| && !ClassReadable(ids[i], uuids) && (forall j :: 0 <= j < i ==> ClassReadable(ids[j], uuids))
        && IndexEntries(ids, uuids).error == (if Hashable(ids[i]) then AttributeError else TypeError)
    decreases |ids|
  {
    if ids != [] && IndexEntries(ids, uuids).Err? {
      var n := |ids| - 1;
      var init := ids[..n];
      assert forall i :: 0 <= i < n ==> init[i] == ids[i];
      if IndexEntries(init, uuids).Err? {
        IndexEntriesError(init, uuids);
        var i :| 0 <= i < n && !ClassReadable(init[i], uuids) && (forall j :: 0 <= j < i ==> ClassReadable(init[j], uuids))
          && IndexEntries(init, uuids).error == (if Hashable(init[i]) then AttributeError else TypeError);
        assert !ClassReadable(ids[i], uuids) && forall j :: 0 <= j < i ==> ClassReadable(ids[j], uuids);
      } else {
        IndexEntriesAreIndexes(init, uuids);
        assert !ClassReadable(ids[n], uuids) && forall j :: 0 <= j < n ==> ClassReadable(ids[j], uuids);
      }
    }
  }

  lemma {:induction false} UniqueIndexLinesShape(entries: seq<Dict>, pkId: Json, byId: ColumnIndex)
    requires UniqueIndexLines(entries, pkId, byId).Ok?
    ensures forall l :: l in UniqueIndexLines(entries, pkId, byId).value ==> IsUniqueLine(l)
    decreases |entries|
  {
    if entries != [] {
      var n := |entries| - 1;
      UniqueIndexLinesShape(entries[..n], pkId, byId);
      UniqueIndexLineKept(entries[n], pkId, byId);
    }
  }

  /** A primary-key line exists only for a key with more than one column id, and there is at most one. */
  lemma PkIndexLinesShape(pk: Option<PrimaryKey>)
    requires PkIndexLines(pk).Ok?
    ensures var p := PkIndexLines(pk).value;
            && |p| <= 1
            && (p != [] <==> pk.Some? && Len(pk.value.ids).value > 1)
            && forall l :: l in p ==> IsPkLine(l)
  {
    var p := PkIndexLines(pk).value;
    if p != [] {
      var l := p[0];
      assert l[|l| - 6..] == ") [pk]";
      assert l[..3] == "  (";
    }
  }

  /** In primary-key lines followed by unique-index lines, every primary-key line comes first. */
  lemma PkLinesFirst(p: seq<string>, u: seq<string>)
    requires forall l :: l in p ==> IsPkLine(l)
    requires forall l :: l in u ==> IsUniqueLine(l)
    ensures forall i, j :: 0 <= i < |p + u| && 0 <= j < |p + u| && IsPkLine((p + u)[i]) && IsUniqueLine((p + u)[j]) ==> i < j
  {
    var ls := p + u;
    forall i | 0 <= i < |ls|
      ensures IsPkLine(ls[i]) ==> i < |p|
      ensures IsUniqueLine(ls[i]) ==> i >= |p|
    {
      PkLineIsNotUniqueLine(ls[i]);
      if i >= |p| {
        assert ls[i] == u[i - |p|];
      } else {
        assert ls[i] == p[i];
      }
    }
  }

  /**
   * The lines of a table's `indexes` block are the composite primary-key line,
   * if any, then the unique-index lines; the primary-key line comes before
   * every `[unique]` line, and the block is present only when it has lines.
   */
  lemma IndexBlockOrder(t: Dict, pk: Option<PrimaryKey>, uuids: UuidMap, byId: ColumnIndex)
    requires TableIndexLines(t, pk, uuids, byId).Ok?
    ensures var ls := TableIndexLines(t, pk, uuids, byId).value;
            && (IndexBlock(ls) == [] <==> ls == [])
            && (forall l :: l in ls ==> IsPkLine(l) || IsUniqueLine(l))
            && (forall i, j :: 0 <= i < |ls| && 0 <= j < |ls| && IsPkLine(ls[i]) && IsUniqueLine(ls[j]) ==> i < j)
  {
    var idxIds := Iter(Collection(Field(t, "table-constraints", JArr([])))).value;
    var entries := IndexEntries(idxIds, uuids).value;
    var p := PkIndexLines(pk).value;
    var u := UniqueIndexLines(entries, Field(t, "primary-key", JNull), byId).value;
    assert TableIndexLines(t, pk, uuids, byId).value == p + u;
    PkIndexLinesShape(pk);
    UniqueIndexLinesShape(entries, Field(t, "primary-key", JNull), byId);
    PkLinesFirst(p, u);
  }

  // ---------------------------------------------------------------- foreign keys

  /**
   * A column-reference pair is dropped exactly when one of its column names
   * is missing or false, or when it refers from a table's column to the same
   * column of the same table.
   */
  lemma RefLineDropped(cr: Json, fk: Dict, refTableName: Json, tableName: Json, byId: ColumnIndex)
    requires RefLine(cr, fk, refTableName, tableName, byId).Ok?
    ensures cr.JObj?
    ensures var fkCol := RefColumnName(cr.fields, "foreign-key-column", byId).value;
            var pkCol := RefColumnName(cr.fields, "primary-key-column", byId).value;
            RefLine(cr, fk, refTableName, tableName, byId).value.None? <==>
              !Truthy(fkCol) || !Truthy(pkCol) || (refTableName == tableName && pkCol == fkCol)
  {
    var crd := cr.fields;
    var fkCol := RefColumnName(crd, "foreign-key-column", byId).value;
    var pkCol := RefColumnName(crd, "primary-key-column", byId).value;
    if Truthy(fkCol) && Truthy(pkCol) {
      assert RefLine(cr, fk, refTableName, tableName, byId) == RefPair(fk, fkCol, pkCol, refTableName, tableName);
      RefPairDropped(fk, fkCol, pkCol, refTableName, tableName);
    }
  }

  /** Once both names are set, a pair is dropped exactly when it refers to itself. */
  lemma RefPairDropped(fk: Dict, fkCol: Json, pkCol: Json, refTableName: Json, tableName: Json)
    requires RefPair(fk, fkCol, pkCol, refTableName, tableName).Ok?
    ensures RefPair(fk, fkCol, pkCol, refTableName, tableName).value.None? <==> SelfReference(refTableName, pkCol, tableName, fkCol)
  {
    var opts := RefRules(fk).value;
    assert RefPair(fk, fkCol, pkCol, refTableName, tableName) == RefChecked(refTableName, pkCol, tableName, fkCol, opts);
  }

  /** The options name the delete rule before the update rule, and only rules that are set. */
  lemma RefOptionsOrder(deleteRule: Json, updateRule: Json)
    ensures var opts := RefOptions(deleteRule, updateRule);
            && |opts| == (if Truthy(deleteRule) then 1 else 0) + (if Truthy(updateRule) then 1 else 0)
            && (Truthy(deleteRule) ==> opts[0] == "delete: " + PyStr(deleteRule))
            && (Truthy(updateRule) ==> opts[|opts| - 1] == "update: " + PyStr(updateRule))
  {
  }

  lemma RefLineIsRef(cr: Json, fk: Dict, refTableName: Json, tableName: Json, byId: ColumnIndex)
    requires RefLine(cr, fk, refTableName, tableName, byId).Ok? && RefLine(cr, fk, refTableName, tableName, byId).value.Some?
    ensures IsRef(RefLine(cr, fk, refTableName, tableName, byId).value.value)
  {
    var crd := AsDict(cr).value;
    var fkCol := RefColumnName(crd, "foreign-key-column", byId).value;
    var pkCol := RefColumnName(crd, "primary-key-column", byId).value;
    assert RefLine(cr, fk, refTableName, tableName, byId) == RefPair(fk, fkCol, pkCol, refTableName, tableName);
    var opts := RefRules(fk).value;
    assert RefPair(fk, fkCol, pkCol, refTableName, tableName) == RefTextOf(refTableName, pkCol, tableName, fkCol, opts);
    var left := QualifiedName(refTableName, pkCol).value;
    var right := QualifiedName(tableName, fkCol).value;
    assert RefTextOf(refTableName, pkCol, tableName, fkCol, opts) == Ok(Some(RefText(left, right, opts)));
    RefTextIsRef(left, right, opts);
  }

  lemma RefTextIsRef(left: string, right: string, opts: seq<string>)
    ensures IsRef(RefText(left, right, opts))
  {
    assert RefText(left, right, opts)[..5] == "Ref: ";
  }

  /** Every line of a foreign key starts with `Ref: `. */
  lemma {:induction false} RefLinesAreRefs(crs: seq<Json>, fk: Dict, refTableName: Json, tableName: Json, byId: ColumnIndex)
    requires RefLines(crs, fk, refTableName, tableName, byId).Ok?
    ensures forall l :: l in RefLines(crs, fk, refTableName, tableName, byId).value ==> IsRef(l)
    decreases |crs|
  {
    if crs != [] {
      var n := |crs| - 1;
      RefLinesAreRefs(crs[..n], fk, refTableName, tableName, byId);
      var init := RefLines(crs[..n], fk, refTableName, tableName, byId).value;
      var line := RefLine(crs[n], fk, refTableName, tableName, byId).value;
      assert RefLines(crs, fk, refTableName, tableName, byId).value == if line.Some? then init + [line.value] else init;
      if line.Some? {
        RefLineIsRef(crs[n], fk, refTableName, tableName, byId);
      }
    }
  }

  lemma {:induction false} ForeignKeyRefsAreRefs(entries: seq<Json>, tableName: Json, uuids: UuidMap, byId: ColumnIndex)
    requires AllForeignKeyRefs(entries, tableName, uuids, byId).Ok?
    ensures forall l :: l in AllForeignKeyRefs(entries, tableName, uuids, byId).value ==> IsRef(l)
    decreases |entries|
  {
    if entries != [] {
      var n := |entries| - 1;
      ForeignKeyRefsAreRefs(entries[..n], tableName, uuids, byId);
      var init := AllForeignKeyRefs(entries[..n], tableName, uuids, byId).value;
      assert AllForeignKeyRefs(entries, tableName, uuids, byId).value == init + ForeignKeyRefs(entries[n], tableName, uuids, byId).value;
      var fk := ForeignKeyObject(entries[n], uuids).value;
      if !IsFalsyKey(fk) {
        assert ForeignKeyRefs(entries[n], tableName, uuids, byId) == ForeignKeyLines(fk.value, tableName, uuids, byId);
        var refTable := AsDict(ReferencedTable(fk.value, uuids)).value;
        var crs := Iter(Collection(Field(fk.value, "column-references", JArr([])))).value;
        assert ForeignKeyLines(fk.value, tableName, uuids, byId) == RefLines(crs, fk.value, TableName(refTable), tableName, byId);
        RefLinesAreRefs(crs, fk.value, TableName(refTable), tableName, byId);
      }
    }
  }

  // ---------------------------------------------------------------- the document

  predicate IsHeader(l: string) {
    StartsWith(l, "Table ")
  }

  predicate IsRef(l: string) {
    StartsWith(l, "Ref: ")
  }

  /** A line inside a table block: indented, or the closing brace. */
  predicate IsBodyLine(l: string) {
    StartsWith(l, "  ") || l == "}\n"
  }

  /** The number of table headers among the lines. */
  function CountHeaders(ls: seq<string>): nat {
    if ls == [] then 0 else (if IsHeader(ls[0]) then 1 else 0) + CountHeaders(ls[1..])
  }

  lemma {:induction false} CountHeadersAppend(a: seq<string>, b: seq<string>)
    ensures CountHeaders(a + b) == CountHeaders(a) + CountHeaders(b)
  {
    if a != [] {
      assert (a + b)[0] == a[0] && (a + b)[1..] == a[1..] + b;
      CountHeadersAppend(a[1..], b);
    } else {
      assert a + b == b;
    }
  }

  lemma {:induction false} CountHeadersOfBody(ls: seq<string>)
    requires forall l :: l in ls ==> IsBodyLine(l)
    ensures CountHeaders(ls) == 0
  {
    if ls != [] {
      assert !IsHeader(ls[0]) by {
        assert IsBodyLine(ls[0]);
        if StartsWith(ls[0], "  ") {
          assert ls[0][0] == ' ';
        }
      }
      CountHeadersOfBody(ls[1..]);
    }
  }

  lemma ColumnLineIndented(c: Dict, pkCols: seq<Json>, uuids: UuidMap)
    requires ColumnLine(c, pkCols, uuids).Ok?
    ensures StartsWith(ColumnLine(c, pkCols, uuids).value, "  ")
  {
    var ctype := PyStr(ResolveDatatype(Field(c, "column-data-type", JNull), uuids));
    var attrs := ColumnAttrs(c, pkCols).value;
    var name := SanitizeIdentifier(Field(c, "name", JNull)).value;
    assert ColumnLine(c, pkCols, uuids).value == ColumnText(name, ctype, attrs);
    ColumnTextIndented(name, ctype, attrs);
  }

  lemma ColumnTextIndented(name: string, ctype: string, attrs: seq<string>)
    ensures StartsWith(ColumnText(name, ctype, attrs), "  ")
  {
    assert ColumnText(name, ctype, attrs)[..2] == "  ";
  }

  lemma ColumnLinesIndented(cols: seq<Dict>, pkCols: seq<Json>, uuids: UuidMap)
    requires ColumnLines(cols, pkCols, uuids).Ok?
    ensures forall l :: l in ColumnLines(cols, pkCols, uuids).value ==> StartsWith(l, "  ")
  {
    forall i | 0 <= i < |cols|
      ensures StartsWith(ColumnLines(cols, pkCols, uuids).value[i], "  ")
    {
      ColumnLineIndented(cols[i], pkCols, uuids);
    }
  }


  /** The lines of a block whose column and index lines are indented: one header, then body lines. */
  lemma TableLinesShape(header: string, colLines: seq<string>, note: string, indexLines: seq<string>)
    requires forall l :: l in colLines ==> StartsWith(l, "  ")
    requires forall l :: l in indexLines ==> StartsWith(l, "  ")
    ensures var ls := TableLines(header, colLines, note, indexLines);
            && |ls| >= 2 && IsHeader(ls[0]) && ls[|ls| - 1] == "}\n"
            && (forall i :: 1 <= i < |ls| ==> IsBodyLine(ls[i]))
            && CountHeaders(ls) == 1
  {
    var first := "Table " + header + " {";
    var body := colLines + NoteLines(note) + IndexBlock(indexLines) + ["}\n"];
    assert TableLines(header, colLines, note, indexLines) == [first] + body;
    assert first[..6] == "Table ";
    BodyLines(colLines, note, indexLines);
    HeaderThenBody(first, body);
  }

  /** A header followed by body lines ending in the closing brace. */
  lemma HeaderThenBody(first: string, body: seq<string>)
    requires IsHeader(first) && body != [] && body[|body| - 1] == "}\n"
    requires forall l :: l in body ==> IsBodyLine(l)
    ensures var ls := [first] + body;
            && |ls| >= 2 && IsHeader(ls[0]) && ls[|ls| - 1] == "}\n"
            && (forall i :: 1 <= i < |ls| ==> IsBodyLine(ls[i]))
            && CountHeaders(ls) == 1
  {
    var ls := [first] + body;
    forall i | 1 <= i < |ls|
      ensures IsBodyLine(ls[i])
    {
      assert ls[i] == body[i - 1];
    }
    CountHeadersAppend([first], body);
    CountHeadersOfBody(body);
  }

  /** Everything after the header of a block is a body line. */
  lemma BodyLines(colLines: seq<string>, note: string, indexLines: seq<string>)
    requires forall l :: l in colLines ==> StartsWith(l, "  ")
    requires forall l :: l in indexLines ==> StartsWith(l, "  ")
    ensures forall l :: l in colLines + NoteLines(note) + IndexBlock(indexLines) + ["}\n"] ==> IsBodyLine(l)
  {
    forall l | l in NoteLines(note)
      ensures IsBodyLine(l)
    {
      assert l[..2] == "  ";
    }
    forall l | l in IndexBlock(indexLines)
      ensures IsBodyLine(l)
    {
    }
  }

  lemma TableIndexLinesIndented(t: Dict, pk: Option<PrimaryKey>, uuids: UuidMap, byId: ColumnIndex)
    requires TableIndexLines(t, pk, uuids, byId).Ok?
    ensures forall l :: l in TableIndexLines(t, pk, uuids, byId).value ==> StartsWith(l, "  ")
  {
    IndexBlockOrder(t, pk, uuids, byId);
    forall l | l in TableIndexLines(t, pk, uuids, byId).value
      ensures StartsWith(l, "  ")
    {
      assert l[..3][..2] == l[..2];
    }
  }

  lemma TableRefsAreRefs(t: Dict, tableName: Json, uuids: UuidMap, byId: ColumnIndex)
    requires TableRefs(t, tableName, uuids, byId).Ok?
    ensures forall l :: l in TableRefs(t, tableName, uuids, byId).value ==> IsRef(l)
  {
    ForeignKeyRefsAreRefs(Iter(Collection(Field(t, "foreign-keys", JArr([])))).value, tableName, uuids, byId);
  }

  /** The shape of a block, as `TableBlockShape` states it. */
  predicate WellShaped(e: Emitted) {
    && |e.lines| >= 2 && IsHeader(e.lines[0]) && e.lines[|e.lines| - 1] == "}\n"
    && (forall i :: 1 <= i < |e.lines| ==> IsBodyLine(e.lines[i]))
    && (forall l :: l in e.refs ==> IsRef(l))
    && CountHeaders(e.lines) == 1
  }

  lemma TableOutputShape(t: Dict, tableNote: string, cols: seq<Dict>, pk: Option<PrimaryKey>, uuids: UuidMap, byId: ColumnIndex)
    requires TableOutput(t, tableNote, cols, pk, uuids, byId).Ok?
    ensures WellShaped(TableOutput(t, tableNote, cols, pk, uuids, byId).value)
  {
    var tableName := TableName(t);
    var pkCols := if pk.Some? then pk.value.names else [];
    var header := SanitizeIdentifier(tableName).value;
    var colLines := ColumnLines(cols, pkCols, uuids).value;
    var indexLines := TableIndexLines(t, pk, uuids, byId).value;
    ColumnLinesIndented(cols, pkCols, uuids);
    TableIndexLinesIndented(t, pk, uuids, byId);
    TableRefsAreRefs(t, tableName, uuids, byId);
    TableLinesShape(header, colLines, tableNote, indexLines);
  }

  /** A table block is one header, then indented lines and the closing brace; its references are `Ref:` lines. */
  lemma TableBlockShape(t: Dict, uuids: UuidMap, byId: ColumnIndex)
    requires TableBlock(t, uuids, byId).Ok?
    ensures WellShaped(TableBlock(t, uuids, byId).value)
  {
    var tableNote := RemarkText(Field(t, "remarks", JNull)).value;
    var cols := TableColumns(t, byId).value;
    var pk := PrimaryKeyOf(Field(t, "primary-key", JNull), uuids, byId).value;
    TableOutputShape(t, tableNote, cols, pk, uuids, byId);
  }

  /** None of the lines is a `Ref:` line. */
  predicate NoRefs(ls: seq<string>) {
    forall l :: l in ls ==> !IsRef(l)
  }

  /** Every line is a `Ref:` line. */
  predicate AllRefs(ls: seq<string>) {
    forall l :: l in ls ==> IsRef(l)
  }

  lemma WellShapedHasNoRefs(e: Emitted)
    requires WellShaped(e)
    ensures NoRefs(e.lines) && AllRefs(e.refs)
  {
    forall i | 0 <= i < |e.lines|
      ensures !IsRef(e.lines[i])
    {
      var l := e.lines[i];
      if i == 0 {
        assert l[0] == 'T';
      } else if l != "}\n" {
        assert l[0] == ' ';
      }
    }
  }

  /** A successful run over the tables is the run over all but the last, followed by the last block. */
  lemma EmitTablesLast(tables: seq<Dict>, uuids: UuidMap, byId: ColumnIndex)
    requires tables != [] && EmitTables(tables, uuids, byId).Ok?
    ensures var n := |tables| - 1;
            && EmitTables(tables[..n], uuids, byId).Ok? && TableBlock(tables[n], uuids, byId).Ok?
            && var init := EmitTables(tables[..n], uuids, byId).value;
               var b := TableBlock(tables[n], uuids, byId).value;
               EmitTables(tables, uuids, byId).value == Emitted(init.lines + b.lines, init.refs + b.refs)
  {
  }

  lemma {:induction false} EmitTablesHeaders(tables: seq<Dict>, uuids: UuidMap, byId: ColumnIndex)
    requires EmitTables(tables, uuids, byId).Ok?
    ensures var e := EmitTables(tables, uuids, byId).value; CountHeaders(e.lines) == |tables|
    decreases |tables|
  {
    if tables != [] {
      var n := |tables| - 1;
      EmitTablesHeaders(tables[..n], uuids, byId);
      var init := EmitTables(tables[..n], uuids, byId).value;
      var b := TableBlock(tables[n], uuids, byId).value;
      EmitTablesLast(tables, uuids, byId);
      TableBlockShape(tables[n], uuids, byId);
      CountHeadersAppend(init.lines, b.lines);
    }
  }

  lemma {:induction false} EmitTablesNoRefs(tables: seq<Dict>, uuids: UuidMap, byId: ColumnIndex)
    requires EmitTables(tables, uuids, byId).Ok?
    ensures var e := EmitTables(tables, uuids, byId).value; NoRefs(e.lines)
    decreases |tables|
  {
    if tables != [] {
      var n := |tables| - 1;
      EmitTablesNoRefs(tables[..n], uuids, byId);
      var init := EmitTables(tables[..n], uuids, byId).value;
      var b := TableBlock(tables[n], uuids, byId).value;
      EmitTablesLast(tables, uuids, byId);
      TableBlockShape(tables[n], uuids, byId);
      WellShapedHasNoRefs(b);
    }
  }

  lemma {:induction false} EmitTablesAllRefs(tables: seq<Dict>, uuids: UuidMap, byId: ColumnIndex)
    requires EmitTables(tables, uuids, byId).Ok?
    ensures var e := EmitTables(tables, uuids, byId).value; AllRefs(e.refs)
    decreases |tables|
  {
    if tables != [] {
      var n := |tables| - 1;
      EmitTablesAllRefs(tables[..n], uuids, byId);
      var init := EmitTables(tables[..n], uuids, byId).value;
      var b := TableBlock(tables[n], uuids, byId).value;
      EmitTablesLast(tables, uuids, byId);
      TableBlockShape(tables[n], uuids, byId);
      WellShapedHasNoRefs(b);
    }
  }

  /** All table lines: one header per table and no `Ref:` line; all reference lines are `Ref:` lines. */
  lemma EmitTablesShape(tables: seq<Dict>, uuids: UuidMap, byId: ColumnIndex)
    requires EmitTables(tables, uuids, byId).Ok?
    ensures var e := EmitTables(tables, uuids, byId).value;
            CountHeaders(e.lines) == |tables| && NoRefs(e.lines) && AllRefs(e.refs)
  {
    EmitTablesHeaders(tables, uuids, byId);
    EmitTablesNoRefs(tables, uuids, byId);
    EmitTablesAllRefs(tables, uuids, byId);
  }

  /** Lines 61-63: the table objects the catalog of a document lists. */
  function DocumentTables(data: Json, uuids: UuidMap): Result<seq<Dict>> {
    var d :- AsDict(data);
    var catalog :- AsDict(Field(d, "catalog", JObj([])));
    var entries :- Iter(Collection(Field(catalog, "tables", JArr([]))));
    TableObjects(entries, uuids)
  }

  /** Lines 65-66: the column index of a document. */
  function DocumentColumns(data: Json): Result<ColumnIndex> {
    var d :- AsDict(data);
    var columns :- Iter(Collection(Field(d, "all-table-columns", JArr([]))));
    ColumnIndexOf(columns)
  }

  /**
   * A converted document is the lines of the tables its catalog lists, followed
   * by their reference lines: the table lines hold one header per table and no
   * `Ref:` line, and every line after them is a `Ref:` line.
   */
  lemma ConvertRefsLast(data: Json)
    requires Convert(data).Ok?
    ensures var uuids := UuidMapOf(data).value;
            && DocumentTables(data, uuids).Ok? && DocumentColumns(data).Ok?
            && EmitTables(DocumentTables(data, uuids).value, uuids, DocumentColumns(data).value).Ok?
    ensures var uuids := UuidMapOf(data).value;
            var tables := DocumentTables(data, uuids).value;
            var e := EmitTables(tables, uuids, DocumentColumns(data).value).value;
            && Convert(data).value == Join(e.lines + e.refs, "\n")
            && CountHeaders(e.lines) == |tables| && NoRefs(e.lines) && AllRefs(e.refs)
  {
    var uuids := UuidMapOf(data).value;
    var tables := DocumentTables(data, uuids).value;
    var byId := DocumentColumns(data).value;
    assert Convert(data) == ConvertDocument(data, uuids);
    assert ConvertDocument(data, uuids) == Render(tables, uuids, byId);
    EmitTablesShape(tables, uuids, byId);
  }
}
