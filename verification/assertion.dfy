/**
 * The `assertion` façade of assert.go. An assertion holds a name and two
 * injected callbacks, `fatal` and `helper`, that it never changes; `Sub`
 * hands the same callbacks to its child. Each operation is modelled by the
 * sequence of messages it passes to `fatal`, in call order, on the
 * assumption that `fatal` returns (as the test double in assert_test.go
 * does); a `fatal` that stops the test observes only the first of them.
 * `helper` only marks call sites and is not modelled.
 */
module Assertions {
  import opened Wrappers
  import opened Text
  import opened Values
  import Be

  datatype Assertion = Assertion(name: string)

  /** The root assertion a step receives: no name. */
  const Root := Assertion("")

  /** The message `fail` hands to `fatal`: prefixed with `name: ` exactly when the name is not empty. */
  function Prefixed(a: Assertion, message: string): (r: string)
    ensures a.name == "" ==> r == message
    ensures a.name != "" ==> StartsWith(r, a.name + ": ")
    ensures |r| == |message| + (if a.name == "" then 0 else |a.name| + 2)
    ensures r[|r| - |message|..] == message
  {
    if a.name != "" then a.name + ": " + message else message
  }

  /** `fail`: exactly one call to `fatal`, with the prefixed message. */
  function Fail(a: Assertion, message: string): (calls: seq<string>)
    ensures |calls| == 1 && calls[0] == Prefixed(a, message)
  {
    [Prefixed(a, message)]
  }

  /**
   * `Sub`: the child's reports carry the child's own name alone; the
   * parent's name plays no part, and the parent is a value and so unchanged.
   */
  function Sub(a: Assertion, name: string): (r: Assertion)
    ensures forall m :: Fail(r, m) == Fail(Assertion(name), m)
    ensures forall m :: name != "" ==> StartsWith(Fail(r, m)[0], name + ": ")
  {
    Assertion(name)
  }

  /** A child's name does not depend on its parent's. */
  lemma SubForgetsParent(a: Assertion, b: Assertion, name: string, m: string)
    ensures Fail(Sub(a, name), m) == Fail(Sub(b, name), m)
  {
  }

  /** `T`: a nil failure reports nothing; a failure reports its own text. */
  function T(a: Assertion, failure: Be.Outcome): (calls: seq<string>)
    ensures calls == [] <==> failure.Pass?
    ensures failure.Fail? ==> calls == Fail(a, failure.message)
  {
    match failure
    case Pass => []
    case Fail(m) => Fail(a, m)
  }

  /** `Fatal`/`Fatalf` with the message already rendered: one report. */
  function Fatal(a: Assertion, message: string): (calls: seq<string>)
    ensures calls == Fail(a, message)
  {
    Fail(a, message)
  }

  /**
   * `NoError`: nothing for a nil error, one report otherwise. When
   * `status.FromError` finds a status in the error (through wrapping too)
   * the report names its payload; any other error reports its text and type.
   */
  function NoError(a: Assertion, err: Option<Error>): (calls: seq<string>)
    ensures calls == [] <==> err.None?
    ensures |calls| <= 1
    ensures err.Some? && FromError(err.value).Some? ==>
              calls == Fail(a, "unexpected error " + ErrorText(err.value) + "\n  " + StatusPayload(FromError(err.value).value) + "\n")
    ensures err.Some? && FromError(err.value).None? ==>
              calls == Fail(a, "got error " + ErrorText(err.value) + " (" + ErrorType(err.value) + "), want no error")
  {
    match err
    case None => []
    case Some(e) =>
      match FromError(e)
      case Some(s) => Fail(a, "unexpected error " + ErrorText(e) + "\n  " + StatusPayload(s) + "\n")
      case None => Fail(a, "got error " + ErrorText(e) + " (" + ErrorType(e) + "), want no error")
  }

  /** A status error reached through `%w` wrapping is reported as a status, with the outer text as its message. */
  lemma NoErrorWrappedStatus(a: Assertion, text: string, code: Code, message: string)
    ensures NoError(a, Some(Wrapped(text, Status(code, message)))) ==
              Fail(a, "unexpected error " + text + "\n  " + StatusPayload(Status(code, text)) + "\n")
  {
    assert Chain(Wrapped(text, Status(code, message)))[1] == Status(code, message);
  }

  /** `prototext.Format(statErr.Proto())`, a stand-in that depends on the code and the message alone. */
  function StatusPayload(s: Error): string
    requires s.Status?
  {
    "code:" + NatToString(s.code) + " message:\"" + s.message + "\""
  }

  /** The failure message of `Equal`, or `None` when it passes. */
  function EqualFailure(want: Value, got: Value): (r: Option<string>)
    ensures (got.NilInterface? || want.NilInterface?) ==> (r.None? <==> got == want)
    ensures !got.NilInterface? && !want.NilInterface? && IsProto(want) ==>
              (r.None? <==> ProtoEqual(want, got))
    ensures !got.NilInterface? && !want.NilInterface? && !IsProto(want) ==>
              (r.None? <==> DeepEqual(got, want))
  {
    if got.NilInterface? || want.NilInterface? then
      if got != want then Some("got " + Show(got) + ", want " + Show(want)) else None
    else if IsProto(want) then
      if !IsProto(got) then Some("want was a proto, got was (" + TypeOf(got) + ")")
      else if !ProtoEqual(want, got) then Some("got " + Show(got) + ", want " + Show(want))
      else None
    else if !DeepEqual(got, want) then Some("got " + Show(got) + ", want " + Show(want))
    else None
  }

  /** `Equal`: at most one report, made exactly when the nil/proto/deep-equality dispatch says the values differ. */
  function Equal(a: Assertion, want: Value, got: Value): (calls: seq<string>)
    ensures |calls| <= 1
    ensures calls == [] <==> EqualFailure(want, got).None?
  {
    match EqualFailure(want, got)
    case None => []
    case Some(m) => Fail(a, m)
  }

  /** `Equal` is reflexive: a value always equals itself, messages compared structurally. */
  lemma EqualReflexive(a: Assertion, x: Value)
    ensures Equal(a, x, x) == []
  {
  }

  /** Nil handling from assert_test.go: `Equal(nil, nil)` passes, `Equal(nil, v)` and `Equal(v, nil)` fail. */
  lemma EqualNil(a: Assertion, v: Value)
    requires !v.NilInterface?
    ensures Equal(a, NilInterface, NilInterface) == []
    ensures |Equal(a, NilInterface, v)| == 1
    ensures |Equal(a, v, NilInterface)| == 1
  {
  }

  /** A nil pointer is not the nil interface, so `Equal(nil, (*T)(nil))` fails. */
  lemma EqualNilPointerIsNotNil(a: Assertion, t: string)
    ensures Equal(a, NilInterface, NilPointer(t)) != []
  {
  }

  /** `want` a message and `got` not: always a failure. */
  lemma EqualProtoAgainstNonProto(a: Assertion, want: Value, got: Value)
    requires IsProto(want) && !IsProto(got) && !got.NilInterface?
    ensures Equal(a, want, got) == Fail(a, "want was a proto, got was (" + TypeOf(got) + ")")
  {
  }

  /**
   * A typed nil message is still a message: against a valid `want` it
   * reaches `proto.Equal`, which fails, and the report prints it as `<nil>`;
   * against a nil `want` of its own type it passes.
   */
  lemma EqualNilMessage(a: Assertion, t: string, fields: seq<Value>, c: int)
    ensures Equal(a, Message(t, fields, c), NilMessage(t)) == Fail(a, "got <nil>, want " + Show(Message(t, fields, c)))
    ensures Equal(a, NilMessage(t), NilMessage(t)) == []
  {
    assert Show(NilMessage(t)) == "<nil>";
    assert !ProtoEqual(Message(t, fields, c), NilMessage(t));
    assert "got " + Show(NilMessage(t)) + ", want " + Show(Message(t, fields, c)) == "got <nil>, want " + Show(Message(t, fields, c));
  }

  /** Two copies of one message that differ only in the size cache are equal. */
  lemma EqualIgnoresProtoCache(a: Assertion, t: string, fields: seq<Value>, c1: int, c2: int)
    ensures Equal(a, Message(t, fields, c1), Message(t, fields, c2)) == []
  {
  }

  /** Index of the first value whose nil-ness is `nilness`, or `|gots|` when there is none. */
  function FirstWithNilness(gots: seq<Value>, nilness: bool): (k: nat)
    ensures k <= |gots|
    ensures k < |gots| ==> IsNil(gots[k]) == nilness
    ensures forall j :: 0 <= j < k ==> IsNil(gots[j]) != nilness
    decreases |gots|
  {
    if gots == [] then 0
    else if IsNil(gots[0]) == nilness then 0
    else 1 + FirstWithNilness(gots[1..], nilness)
  }

  /** The first violation alone decides: values after it do not matter. */
  lemma {:induction false} FirstWithNilnessIgnoresRest(gots: seq<Value>, rest: seq<Value>, nilness: bool)
    requires FirstWithNilness(gots, nilness) < |gots|
    ensures FirstWithNilness(gots + rest, nilness) == FirstWithNilness(gots, nilness)
    decreases |gots|
  {
    if IsNil(gots[0]) != nilness {
      assert (gots + rest)[1..] == gots[1..] + rest;
      FirstWithNilnessIgnoresRest(gots[1..], rest, nilness);
    }
  }

  /** `NotNil`: scans in order and reports "value was nil" once, at the first nil value. */
  method NotNil(a: Assertion, gots: seq<Value>) returns (calls: seq<string>)
    ensures calls == [] <==> forall k :: 0 <= k < |gots| ==> !IsNil(gots[k])
    ensures calls != [] ==> calls == Fail(a, "value was nil")
    ensures calls != [] <==> FirstWithNilness(gots, true) < |gots|
  {
    calls := [];
    for i := 0 to |gots|
      invariant calls == []
      invariant forall k :: 0 <= k < i ==> !IsNil(gots[k])
    {
      if IsNil(gots[i]) {
        calls := Fail(a, "value was nil");
        return;
      }
    }
  }

  /** `Nil`: scans in order and reports "value was not nil" once, at the first non-nil value. */
  method Nil(a: Assertion, gots: seq<Value>) returns (calls: seq<string>)
    ensures calls == [] <==> forall k :: 0 <= k < |gots| ==> IsNil(gots[k])
    ensures calls != [] ==> calls == Fail(a, "value was not nil")
  {
    calls := [];
    for i := 0 to |gots|
      invariant calls == []
      invariant forall k :: 0 <= k < i ==> IsNil(gots[k])
    {
      if !IsNil(gots[i]) {
        calls := Fail(a, "value was not nil");
        return;
      }
    }
  }

  /**
   * The reports of `NotEmpty`: one "zero value" report per zero value, in
   * order, until the first nil interface, which ends the scan with a
   * "got nil" report. (The zero-value branch does not return.)
   */
  function NotEmptyReports(a: Assertion, gots: seq<Value>): (calls: seq<string>)
    ensures |calls| <= |gots|
    ensures calls == [] <==> forall k :: 0 <= k < |gots| ==> !IsZero(gots[k])
    decreases |gots|
  {
    if gots == [] then []
    else if gots[0].NilInterface? then Fail(a, "got nil, want non-nil")
    else if IsZero(gots[0]) then Fail(a, "got zero value, want non-zero") + NotEmptyReports(a, gots[1..])
    else NotEmptyReports(a, gots[1..])
  }

  /** `NotEmpty`. */
  method NotEmpty(a: Assertion, gots: seq<Value>) returns (calls: seq<string>)
    ensures calls == NotEmptyReports(a, gots)
  {
    calls := [];
    var i := 0;
    while i < |gots|
      invariant 0 <= i <= |gots|
      invariant calls + NotEmptyReports(a, gots[i..]) == NotEmptyReports(a, gots)
    {
      var got := gots[i];
      if got.NilInterface? {
        calls := calls + Fail(a, "got nil, want non-nil");
        return;
      }
      if IsZero(got) {
        calls := calls + Fail(a, "got zero value, want non-zero");
      }
      i := i + 1;
    }
  }

  /** `CodeError`: one report unless `status.FromError` finds `code` in `err`, wrapped or not. */
  function CodeError(a: Assertion, err: Option<Error>, code: Code): (calls: seq<string>)
    ensures calls == [] <==> HasCode(err, code)
    ensures calls != [] ==> calls == Fail(a, CodeErrorFailure(err, code).value)
  {
    match CodeErrorFailure(err, code)
    case None => []
    case Some(m) => Fail(a, m)
  }

  /** `MustMessage`: the reports of `NoError(err)` followed by those of `NotNil(m)`. */
  method MustMessage(a: Assertion, m: Value, err: Option<Error>) returns (calls: seq<string>)
    ensures calls == NoError(a, err) + (if IsNil(m) then Fail(a, "value was nil") else [])
    ensures calls == [] <==> err.None? && !IsNil(m)
    ensures |calls| <= 2
  {
    var notNil := NotNil(a, [m]);
    assert [m][0] == m;
    calls := NoError(a, err) + notNil;
  }
}
