/**
 * Path assertions over a JSON document (jsontest/jsontest.go). A document
 * is queried by path; `AssertEqual` dispatches on the kind of expected
 * value (`NotSet`, `IsOneofKey`, `LenEqual`, an `Array`, or any other
 * value) and records its complaints through the test handle's `Errorf`.
 *
 * The path query (`gjson.Get`) is a lookup table from path to the value
 * found there, and each complaint is recorded as a structured failure
 * carrying what `Errorf` would have formatted.
 */
module JsonTest {
  import opened Wrappers

  /** A JSON value as `gjson`'s `Value()` hands it back. */
  datatype Json =
    | JNull
    | JBool(b: bool)
    | JNumber(n: int)
    | JString(s: string)
    | JArray(items: seq<Json>)
    | JObject(fields: map<string, Json>)

  /** The document an `Asserter` holds, seen through its path query. */
  datatype Document = Document(at: map<string, Json>)

  /** `Asserter.Get`: the value at the path, when the path exists. */
  function Get(doc: Document, path: string): (r: Option<Json>)
    ensures r.Some? <==> path in doc.at
  {
    if path in doc.at then Some(doc.at[path]) else None
  }

  /** What `AssertEqual` is asked to check at a path. */
  datatype Expected =
    | NotSet
    | IsOneofKey(key: string)
    | LenEqual(n: int)
    | Array(items: seq<Json>)
    | Plain(value: Json)

  /** One `Errorf` call, by the message it formats. */
  datatype Failure =
    | WasSet(path: string)
    | NotFound(path: string)
    | InvalidForOneof(path: string)
    | NoKey(path: string)
    | MultipleKeys(path: string, keys: set<string>)
    | WrongKey(wantKey: string, gotKey: string)
    | LenMismatch(wantLen: int, gotLen: nat)
    | NotLen(wantLen: int, typeName: string)
    | ArrayNotEqual(path: string, want: Json, got: Json)
    | NotEqual(path: string, want: Json, got: Json)

  /** `%T` of a decoded JSON value. */
  function TypeName(v: Json): string
  {
    match v
    case JNull => "<nil>"
    case JBool(_) => "bool"
    case JNumber(_) => "float64"
    case JString(_) => "string"
    case JArray(_) => "[]interface {}"
    case JObject(_) => "map[string]interface {}"
  }

  /** The keys of a oneof object that name a branch: every key but `"!type"`. A non-object has none. */
  function BranchKeys(v: Option<Json>): set<string>
  {
    if v.Some? && v.value.JObject? then v.value.fields.Keys - {"!type"} else {}
  }

  /** The failures of the oneof check: the object must have exactly the one expected branch key. */
  ghost function OneofFailures(doc: Document, path: string, key: string): (fs: seq<Failure>)
  {
    var found := Get(doc, path);
    var keys := BranchKeys(found);
    (if found.None? then [NotFound(path)] else [])
    + (if found.None? || !found.value.JObject? then [InvalidForOneof(path)] else [])
    + (if |keys| == 0 then [NoKey(path)]
       else if |keys| > 1 then [MultipleKeys(path, keys)]
       else var only :| only in keys; if only != key then [WrongKey(key, only)] else [])
  }

  /** `testify`'s `EqualValues` on decoded JSON: the same value. */
  predicate EqualValues(want: Json, got: Json)
  {
    want == got
  }

  /** The failures of a `LenEqual(n)` check on the value found. */
  function LenFailures(n: int, actual: Json): (fs: seq<Failure>)
    ensures fs == [] <==> (actual.JArray? && |actual.items| == n) || (actual.JObject? && |actual.fields| == n)
  {
    match actual
    case JArray(items) => if |items| != n then [LenMismatch(n, |items|)] else []
    case JObject(fields) => if |fields| != n then [LenMismatch(n, |fields|)] else []
    case _ => [NotLen(n, TypeName(actual))]
  }

  /** The failures of a check that needs the path to exist: "not found", or what `check` finds wrong with the value. */
  function AtPath(doc: Document, path: string, check: Json -> seq<Failure>): (fs: seq<Failure>)
    ensures path !in doc.at ==> fs == [NotFound(path)]
    ensures path in doc.at ==> fs == check(doc.at[path])
  {
    match Get(doc, path)
    case None => [NotFound(path)]
    case Some(actual) => check(actual)
  }

  /** The failures `AssertEqual(t, path, value)` records, in order. */
  ghost function EqualFailures(doc: Document, path: string, value: Expected): (fs: seq<Failure>)
  {
    match value
    case NotSet => if Get(doc, path).Some? then [WasSet(path)] else []
    case IsOneofKey(key) => OneofFailures(doc, path, key)
    case LenEqual(n) => AtPath(doc, path, actual => LenFailures(n, actual))
    case Array(items) =>
      AtPath(doc, path, actual => if EqualValues(JArray(items), actual) then [] else [ArrayNotEqual(path, JArray(items), actual)])
    case Plain(v) =>
      AtPath(doc, path, actual => if EqualValues(v, actual) then [] else [NotEqual(path, v, actual)])
  }

  /** `NotSet` complains once exactly when the path exists, and otherwise stays silent. */
  lemma NotSetIffPresent(doc: Document, path: string)
    ensures path in doc.at ==> EqualFailures(doc, path, NotSet) == [WasSet(path)]
    ensures path !in doc.at ==> EqualFailures(doc, path, NotSet) == []
  {
  }

  /** On a missing path the oneof check carries on after "not found" and records three failures. */
  lemma OneofMissingPath(doc: Document, path: string, key: string)
    requires path !in doc.at
    ensures EqualFailures(doc, path, IsOneofKey(key)) == [NotFound(path), InvalidForOneof(path), NoKey(path)]
  {
  }

  /** The oneof check passes exactly when the path holds an object whose only branch key is the expected one. */
  lemma OneofPassesIff(doc: Document, path: string, key: string)
    ensures EqualFailures(doc, path, IsOneofKey(key)) == []
      <==> path in doc.at && doc.at[path].JObject? && doc.at[path].fields.Keys - {"!type"} == {key}
  {
    var keys := BranchKeys(Get(doc, path));
    if |keys| == 1 {
      var only :| only in keys;
      OnlyElement(keys, only);
    }
    if keys == {key} {
      assert |keys| == 1;
    }
  }

  /** Any other kind of check records exactly one failure, "not found", on a missing path. */
  lemma MissingPathOneFailure(doc: Document, path: string, value: Expected)
    requires !value.NotSet? && !value.IsOneofKey?
    requires path !in doc.at
    ensures EqualFailures(doc, path, value) == [NotFound(path)]
  {
  }

  /** `LenEqual(n)` passes exactly on an array of `n` items or an object of `n` keys. */
  lemma LenEqualPassesIff(doc: Document, path: string, n: int)
    ensures EqualFailures(doc, path, LenEqual(n)) == []
      <==> path in doc.at
           && ((doc.at[path].JArray? && |doc.at[path].items| == n)
               || (doc.at[path].JObject? && |doc.at[path].fields| == n))
  {
  }

  /** The path `AssertEqualSet` checks a key at: the key under the base path, or the key alone at the root. */
  function PathKey(path: string, key: string): (p: string)
    ensures path == "" ==> p == key
    ensures path != "" ==> p == path + "." + key
  {
    if path != "" then path + "." + key else key
  }

  /** The key can be read back off the end of its path, and the base path off the front. */
  lemma PathKeySplits(path: string, key: string)
    ensures var p := PathKey(path, key);
      |key| <= |p| && p[|p| - |key|..] == key
      && (path != "" ==> p[..|path| + 1] == path + ".")
  {
  }

  /** The failures of checking each key of `expected`, visiting the keys in `order`. */
  ghost function SetFailures(doc: Document, path: string, expected: map<string, Expected>, order: seq<string>): seq<Failure>
    requires forall k :: k in order ==> k in expected
  {
    if order == [] then []
    else
      var last := order[|order| - 1];
      SetFailures(doc, path, expected, order[..|order| - 1]) + EqualFailures(doc, PathKey(path, last), expected[last])
  }

  /** Checking one more key appends that key's failures. */
  lemma SetFailuresSnoc(doc: Document, path: string, expected: map<string, Expected>, order: seq<string>, key: string)
    requires forall k :: k in order ==> k in expected
    requires key in expected
    ensures SetFailures(doc, path, expected, order + [key])
      == SetFailures(doc, path, expected, order) + EqualFailures(doc, PathKey(path, key), expected[key])
  {
    assert (order + [key])[..|order|] == order;
  }

  /** The test handle's error record: every `Errorf` appends one failure. */
  class ErrorLog {
    var failures: seq<Failure>

    constructor ()
      ensures failures == []
    {
      failures := [];
    }

    method Errorf(f: Failure)
      modifies this
      ensures failures == old(failures) + [f]
    {
      failures := failures + [f];
    }
  }

  /** The branch keys of a oneof object, collected in map iteration order: each exactly once. */
  method CollectKeys(obj: map<string, Json>) returns (keys: seq<string>)
    ensures forall k :: k in keys <==> k in obj && k != "!type"
    ensures |keys| == |obj.Keys - {"!type"}|
  {
    keys := [];
    var rest := obj.Keys;
    while rest != {}
      invariant rest <= obj.Keys
      invariant forall k :: k in keys <==> k in obj && k !in rest && k != "!type"
      invariant |keys| == |(obj.Keys - rest) - {"!type"}|
      decreases rest
    {
      var k :| k in rest;
      CountBranchKey(obj.Keys, rest, k);
      if k != "!type" {
        keys := keys + [k];
      }
      rest := rest - {k};
    }
  }

  /** Visiting one more key adds one branch key, unless it is `"!type"`. */
  lemma CountBranchKey(all: set<string>, rest: set<string>, k: string)
    requires k in rest && rest <= all
    ensures k != "!type" ==> |(all - (rest - {k})) - {"!type"}| == |(all - rest) - {"!type"}| + 1
    ensures k == "!type" ==> (all - (rest - {k})) - {"!type"} == (all - rest) - {"!type"}
  {
    if k != "!type" {
      assert (all - (rest - {k})) - {"!type"} == ((all - rest) - {"!type"}) + {k};
    }
  }

  /** The oneof branch of `AssertEqual`. */
  method AssertOneof(doc: Document, t: ErrorLog, path: string, key: string)
    modifies t
    ensures t.failures == old(t.failures) + OneofFailures(doc, path, key)
  {
    var atPath := Get(doc, path);
    if atPath.None? {
      t.Errorf(NotFound(path));
    }
    var pathObj: map<string, Json> := map[];
    if atPath.Some? && atPath.value.JObject? {
      pathObj := atPath.value.fields;
    } else {
      t.Errorf(InvalidForOneof(path));
    }
    var keys := CollectKeys(pathObj);
    ghost var branch := BranchKeys(atPath);
    assert pathObj.Keys - {"!type"} == branch;
    if |keys| == 0 {
      t.Errorf(NoKey(path));
    } else if |keys| > 1 {
      t.Errorf(MultipleKeys(path, set k | k in keys));
      assert (set k | k in keys) == branch;
    } else if keys[0] != key {
      t.Errorf(WrongKey(key, keys[0]));
      OnlyElement(branch, keys[0]);
    } else {
      OnlyElement(branch, keys[0]);
    }
  }

  /** A one-element set holds nothing but its element. */
  lemma OnlyElement(s: set<string>, x: string)
    requires |s| == 1 && x in s
    ensures s == {x}
    ensures forall y :: y in s ==> y == x
  {
    var others := s - {x};
    assert s == others + {x};
    assert |others| == 0;
  }

  /** `Asserter.AssertEqual(t, path, value)`. */
  method AssertEqual(doc: Document, t: ErrorLog, path: string, value: Expected)
    modifies t
    ensures t.failures == old(t.failures) + EqualFailures(doc, path, value)
  {
    if value.NotSet? {
      var found := Get(doc, path);
      if found.Some? {
        t.Errorf(WasSet(path));
      }
      return;
    }
    if value.IsOneofKey? {
      AssertOneof(doc, t, path, value.key);
      return;
    }
    var found := Get(doc, path);
    if found.None? {
      t.Errorf(NotFound(path));
      return;
    }
    var actual := found.value;
    match value {
      case LenEqual(n) =>
        if actual.JArray? {
          if |actual.items| != n {
            t.Errorf(LenMismatch(n, |actual.items|));
          }
          return;
        }
        if actual.JObject? {
          if |actual.fields| != n {
            t.Errorf(LenMismatch(n, |actual.fields|));
          }
          return;
        }
        t.Errorf(NotLen(n, TypeName(actual)));
      case Array(items) =>
        var wantVal := ToJSONArray(items);
        if !EqualValues(JArray(wantVal[..]), actual) {
          t.Errorf(ArrayNotEqual(path, JArray(wantVal[..]), actual));
        }
      case Plain(v) =>
        if !EqualValues(v, actual) {
          t.Errorf(NotEqual(path, v, actual));
        }
    }
  }

  /** `Asserter.AssertNotSet(t, path)`: the same check as `AssertEqual` with `NotSet`. */
  method AssertNotSet(doc: Document, t: ErrorLog, path: string)
    modifies t
    ensures t.failures == old(t.failures) + EqualFailures(doc, path, NotSet)
  {
    var found := Get(doc, path);
    if found.Some? {
      t.Errorf(WasSet(path));
    }
  }

  /**
   * `Asserter.AssertEqualSet(t, path, expected)`: checks every key of
   * `expected` under `path`, in map iteration order; `order` is the
   * order the keys were visited in, each exactly once.
   */
  method AssertEqualSet(doc: Document, t: ErrorLog, path: string, expected: map<string, Expected>)
    returns (ghost order: seq<string>)
    modifies t
    ensures forall k :: k in order <==> k in expected
    ensures forall i, j :: 0 <= i < j < |order| ==> order[i] != order[j]
    ensures t.failures == old(t.failures) + SetFailures(doc, path, expected, order)
  {
    order := [];
    var rest := expected.Keys;
    while rest != {}
      invariant rest <= expected.Keys
      invariant forall k :: k in order <==> k in expected && k !in rest
      invariant forall i, j :: 0 <= i < j < |order| ==> order[i] != order[j]
      invariant t.failures == old(t.failures) + SetFailures(doc, path, expected, order)
      decreases rest
    {
      var key :| key in rest;
      CheckKey(doc, t, path, expected, order, key, old(t.failures));
      order := order + [key];
      rest := rest - {key};
    }
  }

  /** One turn of `AssertEqualSet`'s loop: checks `key` and extends the record of visited keys. */
  method CheckKey(doc: Document, t: ErrorLog, path: string, expected: map<string, Expected>,
                  ghost order: seq<string>, key: string, ghost base: seq<Failure>)
    requires forall k :: k in order ==> k in expected
    requires key in expected
    requires t.failures == base + SetFailures(doc, path, expected, order)
    modifies t
    ensures t.failures == base + SetFailures(doc, path, expected, order + [key])
  {
    ghost var done := SetFailures(doc, path, expected, order);
    AssertEqual(doc, t, PathKey(path, key), expected[key]);
    ghost var added := EqualFailures(doc, PathKey(path, key), expected[key]);
    SetFailuresSnoc(doc, path, expected, order, key);
    assert (base + done) + added == base + (done + added);
  }

  /** `Array.toJSONArray`: a fresh slice holding the same elements in the same order. */
  method ToJSONArray<T(0)>(aa: seq<T>) returns (out: array<T>)
    ensures fresh(out)
    ensures out.Length == |aa| && out[..] == aa
  {
    out := new T[|aa|];
    var idx := 0;
    while idx < |aa|
      invariant 0 <= idx <= |aa|
      invariant out[..idx] == aa[..idx]
      modifies out
    {
      out[idx] := aa[idx];
      idx := idx + 1;
    }
    assert out[..] == out[..idx];
  }
}
