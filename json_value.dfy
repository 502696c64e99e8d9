/**
 * A decoded JSON tree and the Python operations the converters apply to it:
 * truthiness, `dict.get`, iteration, `len`, dictionary lookups keyed by decoded
 * values, `str()`, and the order in which a recursive walk visits objects.
 * Python's exceptions are the `Err` case of `Result`.
 */
module JsonValue {
  import Text

  /** A decoded JSON value. An object keeps its members in document order. */
  datatype Json =
    | JNull
    | JBool(b: bool)
    | JInt(n: int)
    | JStr(s: string)
    | JArr(items: seq<Json>)
    | JObj(fields: seq<(string, Json)>)

  /** The members of a decoded object (a Python `dict` loaded from JSON). */
  type Dict = seq<(string, Json)>

  /** The exceptions the converters can raise on malformed input. */
  datatype PyError = TypeError | AttributeError | KeyError | IndexError

  datatype Result<+T> = Ok(value: T) | Err(error: PyError) {
    predicate IsFailure() {
      Err?
    }

    function PropagateFailure<U>(): Result<U>
      requires Err?
    {
      Err(error)
    }

    function Extract(): T
      requires Ok?
    {
      value
    }
  }

  datatype Option<+T> = None | Some(value: T)

  /**
   * The values of `rs` in order, or the first exception among them: what a
   * loop computing one value per item collects when an exception ends it.
   */
  function AllOk<T>(rs: seq<Result<T>>): Result<seq<T>>
    decreases |rs|
  {
    if rs == [] then Ok([])
    else
      var init :- AllOk(rs[..|rs| - 1]);
      var last :- rs[|rs| - 1];
      Ok(init + [last])
  }

  /** The collection succeeds exactly when every item does, and then holds their values in order. */
  lemma {:induction false} AllOkValues<T>(rs: seq<Result<T>>)
    ensures AllOk(rs).Ok? <==> forall i :: 0 <= i < |rs| ==> rs[i].Ok?
    ensures AllOk(rs).Ok? ==> |AllOk(rs).value| == |rs| && forall i :: 0 <= i < |rs| ==> AllOk(rs).value[i] == rs[i].value
    decreases |rs|
  {
    if rs != [] {
      var init := rs[..|rs| - 1];
      AllOkValues(init);
      assert forall i :: 0 <= i < |init| ==> init[i] == rs[i];
    }
  }

  /** A failed collection fails with the error of its first failing item. */
  lemma {:induction false} AllOkFirstError<T>(rs: seq<Result<T>>)
    ensures AllOk(rs).Err? ==>
      exists i :: 0 <= i < |rs| && rs[i].Err? && AllOk(rs).error == rs[i].error && forall j :: 0 <= j < i ==> rs[j].Ok?
    decreases |rs|
  {
    if rs != [] && AllOk(rs).Err? {
      var n := |rs| - 1;
      var init := rs[..n];
      assert forall j :: 0 <= j < n ==> init[j] == rs[j];
      if AllOk(init).Err? {
        AllOkFirstError(init);
        var i :| 0 <= i < n && init[i].Err? && AllOk(init).error == init[i].error && forall j :: 0 <= j < i ==> init[j].Ok?;
        assert rs[i].Err? && AllOk(rs).error == rs[i].error && forall j :: 0 <= j < i ==> rs[j].Ok?;
      } else {
        AllOkValues(init);
        assert rs[n].Err? && AllOk(rs).error == rs[n].error && forall j :: 0 <= j < n ==> rs[j].Ok?;
      }
    }
  }

  /** The result of `f` on each item, in order. */
  function MapResults<A, T>(f: A -> Result<T>, xs: seq<A>): (rs: seq<Result<T>>)
    ensures |rs| == |xs| && forall i :: 0 <= i < |xs| ==> rs[i] == f(xs[i])
  {
    seq(|xs|, i requires 0 <= i < |xs| => f(xs[i]))
  }

  /** Collecting `f` over the items: the values of every call in order, exactly when no call fails. */
  lemma AllOkMap<A, T>(f: A -> Result<T>, xs: seq<A>)
    ensures var r := AllOk(MapResults(f, xs));
            && (r.Ok? <==> forall i :: 0 <= i < |xs| ==> f(xs[i]).Ok?)
            && (r.Ok? ==> |r.value| == |xs| && forall i :: 0 <= i < |xs| ==> r.value[i] == f(xs[i]).value)
  {
    AllOkValues(MapResults(f, xs));
  }

  lemma AllOkNext<T>(rs: seq<Result<T>>, i: nat, vs: seq<T>)
    requires i < |rs| && AllOk(rs[..i]) == Ok(vs) && rs[i].Ok?
    ensures AllOk(rs[..i + 1]) == Ok(vs + [rs[i].value])
  {
    assert rs[..i + 1][..i] == rs[..i] && rs[..i + 1][i] == rs[i];
  }

  lemma AllOkFail<T>(rs: seq<Result<T>>, i: nat, vs: seq<T>)
    requires i < |rs| && AllOk(rs[..i]) == Ok(vs) && rs[i].Err?
    ensures AllOk(rs) == Err(rs[i].error)
  {
    assert rs[..i + 1][..i] == rs[..i] && rs[..i + 1][i] == rs[i];
    AllOkStop(rs, i + 1);
  }

  lemma {:induction false} AllOkStop<T>(rs: seq<Result<T>>, n: nat)
    requires n <= |rs| && AllOk(rs[..n]).Err?
    ensures AllOk(rs) == AllOk(rs[..n])
    decreases |rs|
  {
    if n < |rs| {
      var init := rs[..|rs| - 1];
      assert init[..n] == rs[..n];
      AllOkStop(init, n);
    } else {
      assert rs[..n] == rs;
    }
  }

  lemma AllOkAll<T>(rs: seq<Result<T>>, vs: seq<T>)
    requires AllOk(rs[..|rs|]) == Ok(vs)
    ensures AllOk(rs) == Ok(vs)
  {
    assert rs[..|rs|] == rs;
  }

  /** Python truthiness: `None`, `False`, `0`, `''`, `[]` and `{}` are false. */
  predicate Truthy(j: Json) {
    match j
    case JNull => false
    case JBool(b) => b
    case JInt(n) => n != 0
    case JStr(s) => s != ""
    case JArr(xs) => xs != []
    case JObj(fs) => fs != []
  }

  /** Python's `a or b`. */
  function Or(a: Json, b: Json): Json {
    if Truthy(a) then a else b
  }

  /** The first true value among the candidates, or the fallback: the meaning of a chain of `or`s. */
  function FirstTruthy(cands: seq<Json>, fallback: Json): Json {
    if cands == [] then fallback
    else if Truthy(cands[0]) then cands[0]
    else FirstTruthy(cands[1..], fallback)
  }

  /** Lists and dicts cannot be dictionary keys: using one raises `TypeError`. */
  predicate Hashable(j: Json) {
    !j.JArr? && !j.JObj?
  }

  /** The value bound to `key`, if any (a decoded object binds each key once). */
  function Lookup(d: Dict, key: string): Option<Json> {
    if d == [] then None
    else if d[0].0 == key then Some(d[0].1)
    else Lookup(d[1..], key)
  }

  /** `d.get(key, default)` */
  function Field(d: Dict, key: string, default: Json): Json {
    match Lookup(d, key)
    case Some(v) => v
    case None => default
  }

  /** A value used as the receiver of `.get`: anything but a dict raises `AttributeError`. */
  function AsDict(j: Json): Result<Dict> {
    if j.JObj? then Ok(j.fields) else Err(AttributeError)
  }

  /** `for x in j`: the items of a list, the one-character strings of a str, the keys of a dict. */
  function Iter(j: Json): Result<seq<Json>> {
    match j
    case JArr(xs) => Ok(xs)
    case JStr(s) => Ok(seq(|s|, i requires 0 <= i < |s| => JStr([s[i]])))
    case JObj(fs) => Ok(seq(|fs|, i requires 0 <= i < |fs| => JStr(fs[i].0)))
    case _ => Err(TypeError)
  }

  /** `len(j)` */
  function Len(j: Json): (r: Result<nat>)
    ensures r.Ok? <==> Iter(j).Ok?
    ensures r.Ok? ==> r.value == |Iter(j).value|
  {
    match j
    case JArr(xs) => Ok(|xs|)
    case JStr(s) => Ok(|s|)
    case JObj(fs) => Ok(|fs|)
    case _ => Err(TypeError)
  }

  /** `m.get(k)` on a dict keyed by decoded values; `None` when absent. */
  function MapFind<V>(m: map<Json, V>, k: Json): Result<Option<V>> {
    if !Hashable(k) then Err(TypeError)
    else if k in m then Ok(Some(m[k]))
    else Ok(None)
  }

  /** `m.get(k, default)` */
  function MapGet<V>(m: map<Json, V>, k: Json, default: V): Result<V> {
    if !Hashable(k) then Err(TypeError)
    else if k in m then Ok(m[k])
    else Ok(default)
  }

  /** `k in m` */
  function MapHas<V>(m: map<Json, V>, k: Json): Result<bool> {
    if !Hashable(k) then Err(TypeError) else Ok(k in m)
  }

  /** `str(j)` of a scalar. */
  function ScalarStr(j: Json): string
    requires !j.JArr? && !j.JObj?
  {
    match j
    case JNull => "None"
    case JBool(b) => if b then "True" else "False"
    case JInt(n) => Text.IntToDecimal(n)
    case JStr(s) => s
  }

  /** `str(j)`, which is also what an f-string renders. */
  function PyStr(j: Json): string {
    match j
    case JArr(_) => Repr(j)
    case JObj(_) => Repr(j)
    case _ => ScalarStr(j)
  }

  /** `repr(j)`, as used for the items of a list or dict. */
  function Repr(j: Json): string
    decreases j, 1
  {
    match j
    case JStr(s) => "'" + s + "'"
    case JArr(xs) => "[" + ItemsRepr(j, xs) + "]"
    case JObj(fs) => "{" + MembersRepr(j, fs) + "}"
    case _ => ScalarStr(j)
  }

  function ItemsRepr(ghost parent: Json, xs: seq<Json>): string
    requires forall i :: 0 <= i < |xs| ==> xs[i] < parent
    decreases parent, 0, |xs|
  {
    if xs == [] then ""
    else if |xs| == 1 then Repr(xs[0])
    else ItemsRepr(parent, xs[..|xs| - 1]) + ", " + Repr(xs[|xs| - 1])
  }

  function MembersRepr(ghost parent: Json, fs: seq<(string, Json)>): string
    requires forall i :: 0 <= i < |fs| ==> fs[i].1 < parent
    decreases parent, 0, |fs|
  {
    if fs == [] then ""
    else
      var last := "'" + fs[|fs| - 1].0 + "': " + Repr(fs[|fs| - 1].1);
      if |fs| == 1 then last else MembersRepr(parent, fs[..|fs| - 1]) + ", " + last
  }

  /**
   * The objects of a tree in the order a recursive walk visits them: an object
   * before its member values (in member order), list items in order.
   */
  function Objects(j: Json): seq<Dict>
    decreases j, 1
  {
    match j
    case JObj(fs) => [fs] + MemberObjects(j, fs)
    case JArr(xs) => ItemObjects(j, xs)
    case _ => []
  }

  function MemberObjects(ghost parent: Json, fs: seq<(string, Json)>): seq<Dict>
    requires forall i :: 0 <= i < |fs| ==> fs[i].1 < parent
    decreases parent, 0, |fs|
  {
    if fs == [] then [] else MemberObjects(parent, fs[..|fs| - 1]) + Objects(fs[|fs| - 1].1)
  }

  function ItemObjects(ghost parent: Json, xs: seq<Json>): seq<Dict>
    requires forall i :: 0 <= i < |xs| ==> xs[i] < parent
    decreases parent, 0, |xs|
  {
    if xs == [] then [] else ItemObjects(parent, xs[..|xs| - 1]) + Objects(xs[|xs| - 1])
  }

  /** The walk reaches every object nested in a member value. */
  lemma {:induction false} MemberObjectsIncludeChild(parent: Json, fs: seq<(string, Json)>, k: nat)
    requires forall i :: 0 <= i < |fs| ==> fs[i].1 < parent
    requires k < |fs|
    ensures forall d :: d in Objects(fs[k].1) ==> d in MemberObjects(parent, fs)
    decreases |fs|
  {
    if k < |fs| - 1 {
      MemberObjectsIncludeChild(parent, fs[..|fs| - 1], k);
    }
  }

  /** The walk reaches every object nested in a list item. */
  lemma {:induction false} ItemObjectsIncludeChild(parent: Json, xs: seq<Json>, k: nat)
    requires forall i :: 0 <= i < |xs| ==> xs[i] < parent
    requires k < |xs|
    ensures forall d :: d in Objects(xs[k]) ==> d in ItemObjects(parent, xs)
    decreases |xs|
  {
    if k < |xs| - 1 {
      ItemObjectsIncludeChild(parent, xs[..|xs| - 1], k);
    }
  }

  /** Appending one more member (or item) appends the objects of its value to the walk. */
  lemma MemberObjectsSnoc(parent: Json, fs: seq<(string, Json)>, i: nat)
    requires forall k :: 0 <= k < |fs| ==> fs[k].1 < parent
    requires i < |fs|
    ensures MemberObjects(parent, fs[..i + 1]) == MemberObjects(parent, fs[..i]) + Objects(fs[i].1)
  {
    assert fs[..i + 1][..i] == fs[..i];
  }

  lemma ItemObjectsSnoc(parent: Json, xs: seq<Json>, i: nat)
    requires forall k :: 0 <= k < |xs| ==> xs[k] < parent
    requires i < |xs|
    ensures ItemObjects(parent, xs[..i + 1]) == ItemObjects(parent, xs[..i]) + Objects(xs[i])
  {
    assert xs[..i + 1][..i] == xs[..i];
  }

  /** The walk of the first `n` members (or items) is a prefix of the walk of all of them. */
  lemma {:induction false} MemberObjectsPrefix(parent: Json, fs: seq<(string, Json)>, n: nat)
    requires forall k :: 0 <= k < |fs| ==> fs[k].1 < parent
    requires n <= |fs|
    ensures MemberObjects(parent, fs[..n]) <= MemberObjects(parent, fs)
    decreases |fs|
  {
    if n < |fs| {
      var init := fs[..|fs| - 1];
      assert init[..n] == fs[..n];
      MemberObjectsPrefix(parent, init, n);
    } else {
      assert fs[..n] == fs;
    }
  }

  lemma {:induction false} ItemObjectsPrefix(parent: Json, xs: seq<Json>, n: nat)
    requires forall k :: 0 <= k < |xs| ==> xs[k] < parent
    requires n <= |xs|
    ensures ItemObjects(parent, xs[..n]) <= ItemObjects(parent, xs)
    decreases |xs|
  {
    if n < |xs| {
      var init := xs[..|xs| - 1];
      assert init[..n] == xs[..n];
      ItemObjectsPrefix(parent, init, n);
    } else {
      assert xs[..n] == xs;
    }
  }

  lemma {:induction false} InMemberObjects(parent: Json, fs: seq<(string, Json)>, d: Dict)
    requires forall i :: 0 <= i < |fs| ==> fs[i].1 < parent
    requires d in MemberObjects(parent, fs)
    ensures exists k :: 0 <= k < |fs| && d in Objects(fs[k].1)
    decreases |fs|
  {
    var n := |fs| - 1;
    if d !in Objects(fs[n].1) {
      InMemberObjects(parent, fs[..n], d);
      var k :| 0 <= k < n && d in Objects(fs[..n][k].1);
      assert fs[..n][k] == fs[k];
    }
  }

  lemma {:induction false} InItemObjects(parent: Json, xs: seq<Json>, d: Dict)
    requires forall i :: 0 <= i < |xs| ==> xs[i] < parent
    requires d in ItemObjects(parent, xs)
    ensures exists k :: 0 <= k < |xs| && d in Objects(xs[k])
    decreases |xs|
  {
    var n := |xs| - 1;
    if d !in Objects(xs[n]) {
      InItemObjects(parent, xs[..n], d);
      var k :| 0 <= k < n && d in Objects(xs[..n][k]);
      assert xs[..n][k] == xs[k];
    }
  }

  /**
   * The walk is closed under descent: the objects under any member value of a
   * visited object are visited too.
   */
  lemma {:induction false} ObjectsClosed(j: Json, d: Dict, k: nat, e: Dict)
    requires d in Objects(j)
    requires k < |d| && e in Objects(d[k].1)
    ensures e in Objects(j)
    decreases j
  {
    match j
    case JObj(fs) =>
      if d == fs {
        MemberObjectsIncludeChild(j, fs, k);
      } else {
        assert d in MemberObjects(j, fs);
        InMemberObjects(j, fs, d);
        var m :| 0 <= m < |fs| && d in Objects(fs[m].1);
        ObjectsClosed(fs[m].1, d, k, e);
        MemberObjectsIncludeChild(j, fs, m);
      }
    case JArr(xs) =>
      InItemObjects(j, xs, d);
      var m :| 0 <= m < |xs| && d in Objects(xs[m]);
      ObjectsClosed(xs[m], d, k, e);
      ItemObjectsIncludeChild(j, xs, m);
  }

  /** The root object is visited first, and every object in a visited list is visited. */
  lemma ObjectsRootAndItems(j: Json)
    ensures j.JObj? ==> Objects(j)[0] == j.fields
    ensures j.JArr? ==> forall k, e :: 0 <= k < |j.items| && e in Objects(j.items[k]) ==> e in Objects(j)
  {
    if j.JArr? {
      forall k, e | 0 <= k < |j.items| && e in Objects(j.items[k])
        ensures e in Objects(j)
      {
        ItemObjectsIncludeChild(j, j.items, k);
      }
    }
  }

  /**
   * The dictionary after writing `ps` into `m` in order (`m[k] = v` for each pair):
   * a key written twice keeps the value written last.
   */
  function Record<V>(m: map<Json, V>, ps: seq<(Json, V)>): map<Json, V>
    decreases |ps|
  {
    if ps == [] then m else Record(m, ps[..|ps| - 1])[ps[|ps| - 1].0 := ps[|ps| - 1].1]
  }

  lemma RecordSnoc<V>(m: map<Json, V>, ps: seq<(Json, V)>, p: (Json, V))
    ensures Record(m, ps + [p]) == Record(m, ps)[p.0 := p.1]
  {
    assert (ps + [p])[..|ps|] == ps;
  }

  lemma {:induction false} RecordAppend<V>(m: map<Json, V>, a: seq<(Json, V)>, b: seq<(Json, V)>)
    ensures Record(m, a + b) == Record(Record(m, a), b)
    decreases |b|
  {
    if b == [] {
      assert a + b == a;
    } else {
      var b' := b[..|b| - 1];
      assert a + b == (a + b') + [b[|b| - 1]];
      assert b == b' + [b[|b| - 1]];
      RecordAppend(m, a, b');
      RecordSnoc(m, a + b', b[|b| - 1]);
      RecordSnoc(Record(m, a), b', b[|b| - 1]);
    }
  }

  /** The keys after the writes: the old keys and every key written. */
  lemma {:induction false} RecordKeys<V>(m: map<Json, V>, ps: seq<(Json, V)>)
    ensures Record(m, ps).Keys == m.Keys + set i | 0 <= i < |ps| :: ps[i].0
    decreases |ps|
  {
    if ps != [] {
      var init := ps[..|ps| - 1];
      RecordKeys(m, init);
      assert ps == init + [ps[|ps| - 1]];
      assert (set i | 0 <= i < |ps| :: ps[i].0) == (set i | 0 <= i < |init| :: init[i].0) + {ps[|ps| - 1].0};
    }
  }

  /** Last write wins: a pair that no later pair overwrites is what the dictionary holds. */
  lemma {:induction false} RecordLastWins<V>(m: map<Json, V>, ps: seq<(Json, V)>, i: nat)
    requires i < |ps|
    requires forall j :: i < j < |ps| ==> ps[j].0 != ps[i].0
    ensures ps[i].0 in Record(m, ps) && Record(m, ps)[ps[i].0] == ps[i].1
    decreases |ps|
  {
    if i < |ps| - 1 {
      var init := ps[..|ps| - 1];
      assert forall j :: i < j < |init| ==> init[j] == ps[j];
      RecordLastWins(m, init, i);
    }
  }

  /** A key that is never written keeps its old value. */
  lemma {:induction false} RecordUnwritten<V>(m: map<Json, V>, ps: seq<(Json, V)>, k: Json)
    requires k in m
    requires forall j :: 0 <= j < |ps| ==> ps[j].0 != k
    ensures k in Record(m, ps) && Record(m, ps)[k] == m[k]
    decreases |ps|
  {
    if ps != [] {
      RecordUnwritten(m, ps[..|ps| - 1], k);
    }
  }

  /** Every key of the writes is hashable, so none of them raises `TypeError`. */
  predicate AllHashable<V>(ps: seq<(Json, V)>) {
    forall i :: 0 <= i < |ps| ==> Hashable(ps[i].0)
  }

  lemma AllHashableAppend<V>(a: seq<(Json, V)>, b: seq<(Json, V)>)
    ensures AllHashable(a + b) <==> AllHashable(a) && AllHashable(b)
  {
    if AllHashable(a) && AllHashable(b) {
      forall i | 0 <= i < |a + b|
        ensures Hashable((a + b)[i].0)
      {
        if i >= |a| {
          assert (a + b)[i] == b[i - |a|];
        }
      }
    }
    if AllHashable(a + b) {
      forall i | 0 <= i < |a|
        ensures Hashable(a[i].0)
      {
        assert (a + b)[i] == a[i];
      }
      forall i | 0 <= i < |b|
        ensures Hashable(b[i].0)
      {
        assert (a + b)[|a| + i] == b[i];
      }
    }
  }
}
