/**
 * The dynamic values (`interface{}`) and errors that the assertion helpers
 * inspect, together with the foreign functions they call on them
 * (`reflect.DeepEqual`, `reflect.Value.IsZero`, `proto.Equal`,
 * `status.FromError`, `fmt`'s `%v`/`%T`), each given a definition over this
 * abstract representation.
 */
module Values {
  import opened Wrappers
  import opened Text

  /** A Go value held in an `interface{}`. */
  datatype Value =
    | NilInterface                         // the untyped nil interface
    | NilPointer(typeName: string)         // a typed nil pointer, such as `(*T)(nil)`
    | Pointer(typeName: string, target: Value)
    | Int(i: int)
    | Str(s: string)
    | Bool(b: bool)
    | NilSlice(typeName: string)           // a nil slice
    | Slice(typeName: string, items: seq<Value>)
    | Struct(typeName: string, fields: seq<Value>)
      /** A pointer to a generated protobuf message; `sizeCache` is internal bookkeeping. */
    | Message(typeName: string, fields: seq<Value>, sizeCache: int)
      /** A typed nil pointer to a generated message, such as `(*pb.Foo)(nil)`: still a `proto.Message`. */
    | NilMessage(typeName: string)

  /** `isNil` of assert.go: only the nil interface and nil pointers, to messages or not, are nil. */
  predicate IsNil(v: Value)
  {
    v.NilInterface? || v.NilPointer? || v.NilMessage?
  }

  /**
   * The cases of `isNil` in assert_test.go: strings, numbers, slices (empty
   * or not), structs and pointers to structs are not nil; the nil interface
   * and typed nil pointers are. A nil slice is a zero value but, not being a
   * pointer, is not nil either.
   */
  lemma IsNilCases(v: Value, t: string)
    ensures IsNil(v) ==> IsZero(v) && Show(v) == "<nil>"
    ensures IsNil(NilInterface) && IsNil(NilPointer(t)) && IsNil(NilMessage(t))
    ensures !IsNil(Str("foo")) && !IsNil(Str("")) && !IsNil(Int(1)) && !IsNil(Int(0))
    ensures !IsNil(Slice("[]string", [Str("foo")])) && !IsNil(Slice("[]string", [])) && !IsNil(Slice("[]uint8", []))
    ensures !IsNil(Pointer("*struct {}", Struct("struct {}", []))) && !IsNil(Struct("assert.testStruct", []))
    ensures !IsNil(NilSlice(t)) && IsZero(NilSlice(t))
  {
  }

  /** `reflect.Value.IsZero`: the value equals its type's zero value. */
  predicate IsZero(v: Value)
  {
    match v
    case NilInterface => true
    case NilPointer(_) => true
    case Pointer(_, _) => false
    case Int(i) => i == 0
    case Str(s) => s == ""
    case Bool(b) => !b
    case NilSlice(_) => true
    case Slice(_, _) => false
    case Struct(_, fields) => forall k :: 0 <= k < |fields| ==> IsZero(fields[k])
    case Message(_, _, _) => false
    case NilMessage(_) => true
  }

  /** The value implements `proto.Message`: a message pointer, nil or not. */
  predicate IsProto(v: Value)
  {
    v.Message? || v.NilMessage?
  }

  /** `reflect.DeepEqual` over the abstract values: structural equality, bookkeeping fields included. */
  predicate DeepEqual(a: Value, b: Value)
  {
    a == b
  }

  /** A message with every internal size cache cleared. */
  function Canonical(v: Value): (r: Value)
    ensures r.Message? <==> v.Message?
  {
    match v
    case Message(t, fields, _) =>
      Message(t, seq(|fields|, k requires 0 <= k < |fields| => Canonical(fields[k])), 0)
    case Pointer(t, target) => Pointer(t, Canonical(target))
    case Slice(t, items) => Slice(t, seq(|items|, k requires 0 <= k < |items| => Canonical(items[k])))
    case Struct(t, fields) => Struct(t, seq(|fields|, k requires 0 <= k < |fields| => Canonical(fields[k])))
    case _ => v
  }

  /**
   * `proto.Equal` on two messages: valid messages of the same type whose
   * fields agree, internal caches ignored, or two nil pointers of the same
   * message type. A nil message never equals a valid one.
   */
  predicate ProtoEqual(a: Value, b: Value)
  {
    || (a.Message? && b.Message? && Canonical(a) == Canonical(b))
    || (a.NilMessage? && a == b)
  }

  /** `proto.Equal` is weaker than deep equality: it ignores the caches that `reflect.DeepEqual` sees. */
  lemma ProtoEqualIgnoresCache(t: string, fields: seq<Value>, c1: int, c2: int)
    requires c1 != c2
    ensures ProtoEqual(Message(t, fields, c1), Message(t, fields, c2))
    ensures !DeepEqual(Message(t, fields, c1), Message(t, fields, c2))
  {
  }

  /** `%T`: the dynamic type's name. */
  function TypeOf(v: Value): string
  {
    match v
    case NilInterface => "<nil>"
    case NilPointer(t) => t
    case Pointer(t, _) => t
    case Int(_) => "int"
    case Str(_) => "string"
    case Bool(_) => "bool"
    case NilSlice(t) => t
    case Slice(t, _) => t
    case Struct(t, _) => t
    case Message(t, _, _) => t
    case NilMessage(t) => t
  }

  /** `%v`: the value's default rendering. */
  function Show(v: Value): (s: string)
  {
    ShowAt(v, true)
  }

  /**
   * `%v` at the top level (`top`) or nested inside a composite: a pointer to
   * a struct or slice prints as `&` and its target only at the top level,
   * and any other non-nil pointer prints as an address, abstracted to `0x...`.
   */
  function ShowAt(v: Value, top: bool): (s: string)
  {
    match v
    case NilInterface => "<nil>"
    case NilPointer(_) => "<nil>"
    case Pointer(_, target) =>
      if top && (target.Struct? || target.Slice? || target.NilSlice?) then "&" + ShowAt(target, false) else "0x..."
    case Int(i) => IntToString(i)
    case Str(s) => s
    case Bool(b) => if b then "true" else "false"
    case NilSlice(_) => "[]"
    case Slice(_, items) => "[" + Join(seq(|items|, k requires 0 <= k < |items| => ShowAt(items[k], false)), " ") + "]"
    case Struct(_, fields) => "{" + Join(seq(|fields|, k requires 0 <= k < |fields| => ShowAt(fields[k], false)), " ") + "}"
    case Message(_, fields, _) => "{" + Join(seq(|fields|, k requires 0 <= k < |fields| => ShowAt(fields[k], false)), " ") + "}"
    case NilMessage(_) => "<nil>"
  }

  /** `&{…}` is printed for a pointer to a struct only at the top level; nested, the pointer prints as an address. */
  lemma ShowPointerDepth(t: string, inner: Value)
    requires inner.Struct?
    ensures Show(Pointer(t, inner)) == "&" + ShowAt(inner, false)
    ensures Show(Struct("", [Pointer(t, inner)])) == "{0x...}"
  {
    var fs := [Pointer(t, inner)];
    assert seq(|fs|, k requires 0 <= k < |fs| => ShowAt(fs[k], false)) == ["0x..."];
  }

  /** A gRPC status code (`codes.Code`). */
  type Code = nat

  /** `codes.Code.String()`. */
  function CodeName(c: Code): string
  {
    if c == 0 then "OK"
    else if c == 1 then "Canceled"
    else if c == 2 then "Unknown"
    else if c == 3 then "InvalidArgument"
    else if c == 4 then "DeadlineExceeded"
    else if c == 5 then "NotFound"
    else if c == 6 then "AlreadyExists"
    else if c == 7 then "PermissionDenied"
    else if c == 8 then "ResourceExhausted"
    else if c == 9 then "FailedPrecondition"
    else if c == 10 then "Aborted"
    else if c == 11 then "OutOfRange"
    else if c == 12 then "Unimplemented"
    else if c == 13 then "Internal"
    else if c == 14 then "Unavailable"
    else if c == 15 then "DataLoss"
    else if c == 16 then "Unauthenticated"
    else "Code(" + NatToString(c) + ")"
  }

  /** A non-nil Go `error`. A nil error is `None` in an `Option<Error>`. */
  datatype Error =
    | Plain(text: string, typeName: string)   // errors.New, fmt.Errorf without %w, ...
    | Status(code: Code, message: string)      // a gRPC status error
    | Api(statusCode: int)                     // *testclient.APIError
    | EOF                                      // io.EOF
    | Wrapped(text: string, cause: Error)      // fmt.Errorf("...: %w", cause)

  /** `err.Error()`. */
  function ErrorText(e: Error): string
  {
    match e
    case Plain(text, _) => text
    case Status(code, message) => "rpc error: code = " + CodeName(code) + " desc = " + message
    case Api(statusCode) => StatusText(statusCode)
    case EOF => "EOF"
    case Wrapped(text, _) => text
  }

  /** `%T` of an error. */
  function ErrorType(e: Error): string
  {
    match e
    case Plain(_, typeName) => typeName
    case Status(_, _) => "*status.Error"
    case Api(_) => "*testclient.APIError"
    case EOF => "*errors.errorString"
    case Wrapped(_, _) => "*fmt.wrapError"
  }

  /** `http.StatusText` for the common codes; an unknown code has the empty text. */
  function StatusText(code: int): string
  {
    if code == 200 then "OK"
    else if code == 201 then "Created"
    else if code == 204 then "No Content"
    else if code == 400 then "Bad Request"
    else if code == 401 then "Unauthorized"
    else if code == 403 then "Forbidden"
    else if code == 404 then "Not Found"
    else if code == 405 then "Method Not Allowed"
    else if code == 409 then "Conflict"
    else if code == 412 then "Precondition Failed"
    else if code == 422 then "Unprocessable Entity"
    else if code == 429 then "Too Many Requests"
    else if code == 500 then "Internal Server Error"
    else if code == 501 then "Not Implemented"
    else if code == 502 then "Bad Gateway"
    else if code == 503 then "Service Unavailable"
    else if code == 504 then "Gateway Timeout"
    else ""
  }

  /** The error followed by the errors it wraps, outermost first, as `errors.Unwrap` walks them. */
  function Chain(e: Error): (c: seq<Error>)
    ensures 0 < |c| && c[0] == e
  {
    match e
    case Wrapped(_, cause) => [e] + Chain(cause)
    case _ => [e]
  }

  /** `errors.As(err, &apiErr)` with `apiErr` a `*APIError`: the status of the first API error in the chain. */
  function AsAPIError(e: Error): (r: Option<int>)
    ensures r.Some? ==> Api(r.value) in Chain(e)
    ensures r.None? ==> forall c :: Api(c) !in Chain(e)
  {
    match e
    case Api(code) => Some(code)
    case Wrapped(_, cause) => AsAPIError(cause)
    case _ => None
  }

  /** `errors.Is(err, io.EOF)`. */
  function IsEOF(e: Error): (r: bool)
    ensures r <==> EOF in Chain(e)
  {
    match e
    case EOF => true
    case Wrapped(_, cause) => IsEOF(cause)
    case _ => false
  }

  /** The first status error in the wrap chain, as `errors.As` finds it. */
  function FirstStatus(e: Error): (r: Option<Error>)
    ensures r.Some? ==> r.value.Status?
    ensures r.Some? ==> exists k :: 0 <= k < |Chain(e)| && Chain(e)[k] == r.value && forall j :: 0 <= j < k ==> !Chain(e)[j].Status?
    ensures r.None? <==> forall k :: 0 <= k < |Chain(e)| ==> !Chain(e)[k].Status?
  {
    match e
    case Status(_, _) =>
      assert Chain(e)[0] == e;
      Some(e)
    case Wrapped(_, cause) =>
      var r := FirstStatus(cause);
      assert forall k :: 1 <= k < |Chain(e)| ==> Chain(e)[k] == Chain(cause)[k - 1];
      if r.Some? then
        var k :| 0 <= k < |Chain(cause)| && Chain(cause)[k] == r.value && forall j :: 0 <= j < k ==> !Chain(cause)[j].Status?;
        assert Chain(e)[k + 1] == r.value;
        r
      else
        r
    case _ => None
  }

  /**
   * `status.FromError` on a non-nil error, as grpc-go has done since
   * release 1.55: the status of the first status error in the wrap chain.
   * A status error found under a wrap gets the whole error's text as its
   * message; a bare one is returned as it is.
   */
  function FromError(e: Error): (r: Option<Error>)
    ensures r.Some? <==> FirstStatus(e).Some?
    ensures r.Some? ==> r.value.Status? && r.value.code == FirstStatus(e).value.code
    ensures e.Status? ==> r == Some(e)
    ensures r.Some? && !e.Status? ==> r.value.message == ErrorText(e)
  {
    match FirstStatus(e)
    case None => None
    case Some(s) => if e.Status? then Some(e) else Some(Status(s.code, ErrorText(e)))
  }

  /** The code `status.FromError` reports, when it finds a status. */
  function StatusCode(e: Error): (r: Option<Code>)
    ensures r.Some? <==> FirstStatus(e).Some?
    ensures r.Some? ==> r.value == FirstStatus(e).value.code
  {
    match FromError(e)
    case None => None
    case Some(s) => Some(s.code)
  }

  /** The status code is found through any number of `%w` wraps. */
  lemma {:induction false} StatusCodeThroughWraps(texts: seq<string>, code: Code, message: string)
    ensures StatusCode(WrapAll(texts, Status(code, message))) == Some(code)
    decreases |texts|
  {
    if texts != [] {
      StatusCodeThroughWraps(texts[1..], code, message);
      var inner := WrapAll(texts[1..], Status(code, message));
      assert WrapAll(texts, Status(code, message)) == Wrapped(texts[0], inner);
      assert FirstStatus(Wrapped(texts[0], inner)) == FirstStatus(inner);
    }
  }

  /** `fmt.Errorf(texts[0] + ": %w", … fmt.Errorf(texts[n-1] + ": %w", e))`, outermost first. */
  function WrapAll(texts: seq<string>, e: Error): (r: Error)
    ensures |Chain(r)| == |texts| + |Chain(e)|
    ensures Chain(r)[|texts|..] == Chain(e)
    decreases |texts|
  {
    if texts == [] then e else Wrapped(texts[0], WrapAll(texts[1..], e))
  }

  /** Has the error, found through wrapping, the given status code? */
  predicate HasCode(err: Option<Error>, code: Code)
  {
    err.Some? && StatusCode(err.value) == Some(code)
  }

  /**
   * The check shared by `CodeError` in assert.go and in stepper.go: the
   * failure message, or `None` when `status.FromError` finds `code` in `err`.
   */
  function CodeErrorFailure(err: Option<Error>, code: Code): (r: Option<string>)
    ensures r.None? <==> HasCode(err, code)
  {
    match err
    case None => Some("got no error, want code " + CodeName(code))
    case Some(e) =>
      match StatusCode(e)
      case None => Some("got error " + ErrorText(e) + " (" + ErrorType(e) + "), want code " + CodeName(code))
      case Some(c) => if c != code then Some("got code " + CodeName(c) + ", want " + CodeName(code)) else None
  }

  /** The three failing cases of `CodeError`, one by one, and the passing one, wrapped or not. */
  lemma CodeErrorCases(err: Option<Error>, code: Code)
    ensures err.None? ==> CodeErrorFailure(err, code) == Some("got no error, want code " + CodeName(code))
    ensures err.Some? && (forall k :: 0 <= k < |Chain(err.value)| ==> !Chain(err.value)[k].Status?) ==>
              CodeErrorFailure(err, code) == Some("got error " + ErrorText(err.value) + " (" + ErrorType(err.value) + "), want code " + CodeName(code))
    ensures err.Some? && FirstStatus(err.value).Some? && FirstStatus(err.value).value.code != code ==>
              CodeErrorFailure(err, code) == Some("got code " + CodeName(FirstStatus(err.value).value.code) + ", want " + CodeName(code))
    ensures err.Some? && FirstStatus(err.value).Some? && FirstStatus(err.value).value.code == code ==>
              CodeErrorFailure(err, code).None?
  {
  }

  /** A `%w`-wrapped status error with the expected code passes `CodeError`, as a bare one does. */
  lemma WrappedStatusPasses(texts: seq<string>, code: Code, message: string)
    ensures CodeErrorFailure(Some(WrapAll(texts, Status(code, message))), code).None?
  {
    StatusCodeThroughWraps(texts, code, message);
  }
}
