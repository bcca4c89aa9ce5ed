/**
 * The HTTP test client helpers of runner/testclient/testclient.go that
 * decide something: `AssertHTTPError`, which checks an error for an
 * `*APIError` with an expected status, and `Paged`, which walks a paged
 * list endpoint and hands each item to a callback.
 *
 * The endpoint `Paged` calls is a scripted sequence of responses, one per
 * call, and the callback is a function from an item to the error it
 * returns (`None` for nil).
 */
module TestClient {
  import opened Wrappers
  import opened Text
  import opened Values
  import Be

  // ---------------------------------------------------------------------
  // AssertHTTPError
  // ---------------------------------------------------------------------

  /** `AssertHTTPError(err, code)`: passes only for an API error, anywhere in the chain, with that status. */
  function AssertHTTPError(err: Option<Error>, code: int): (r: Be.Outcome)
    ensures r.Pass? <==> err.Some? && AsAPIError(err.value) == Some(code)
  {
    match err
    case None => Be.Failf("expected HTTP error " + IntToString(code) + ", got nil")
    case Some(e) =>
      match AsAPIError(e)
      case Some(status) =>
        if status != code then Be.Failf("expected HTTP error " + IntToString(code) + ", got " + IntToString(status))
        else Be.Pass
      case None => Be.Failf("expected HTTP error " + IntToString(code) + ", got " + ErrorText(e))
  }

  /** The cases of `AssertHTTPError` one by one, with the message of each failure. */
  lemma AssertHTTPErrorCases(code: int, other: int, text: string, typeName: string)
    requires other != code
    ensures AssertHTTPError(None, code) == Be.Fail("expected HTTP error " + IntToString(code) + ", got nil")
    ensures AssertHTTPError(Some(Api(code)), code) == Be.Pass
    ensures AssertHTTPError(Some(Wrapped(text, Api(code))), code) == Be.Pass
    ensures AssertHTTPError(Some(Api(other)), code)
      == Be.Fail("expected HTTP error " + IntToString(code) + ", got " + IntToString(other))
    ensures AssertHTTPError(Some(Plain(text, typeName)), code)
      == Be.Fail("expected HTTP error " + IntToString(code) + ", got " + text)
    ensures AssertHTTPError(Some(EOF), code).Fail?
  {
  }

  // ---------------------------------------------------------------------
  // Paged
  // ---------------------------------------------------------------------

  /** What one call of the endpoint gives: a page of items with the next page token, or an error. */
  datatype Response<Item> =
    | Page(items: seq<Item>, next: Option<string>)
    | CallFailed(err: Error)

  /** The end of a walk: the error `Paged` returns, the items handed to the callback, the token of each call. */
  datatype Walk<Item> = Walk(err: Option<Error>, delivered: seq<Item>, requested: seq<Option<string>>)

  /** The response ends the walk: an error, a last page, or a page with an item the callback refuses. */
  ghost predicate Final<Item>(response: Response<Item>, callback: Item -> Option<Error>)
  {
    response.CallFailed? || response.next.None? || FirstRefused(response.items, callback).Some?
  }

  /** The scripted endpoint ends the walk within the script. */
  ghost predicate Ends<Item>(responses: seq<Response<Item>>, callback: Item -> Option<Error>)
  {
    exists k :: 0 <= k < |responses| && Final(responses[k], callback)
  }

  /** A response that does not end the walk leaves the rest of the script to end it. */
  lemma EndsRest<Item>(responses: seq<Response<Item>>, callback: Item -> Option<Error>)
    requires Ends(responses, callback) && !Final(responses[0], callback)
    ensures Ends(responses[1..], callback)
  {
    var k :| 0 <= k < |responses| && Final(responses[k], callback);
    assert responses[1..][k - 1] == responses[k];
  }

  /** The index of the first item the callback refuses, if any. */
  function FirstRefused<Item>(items: seq<Item>, callback: Item -> Option<Error>): (r: Option<nat>)
    ensures r.Some? ==> r.value < |items| && callback(items[r.value]).Some?
    ensures r.Some? ==> forall i :: 0 <= i < r.value ==> callback(items[i]).None?
    ensures r.None? ==> forall i :: 0 <= i < |items| ==> callback(items[i]).None?
  {
    if items == [] then None
    else if callback(items[0]).Some? then Some(0)
    else
      match FirstRefused(items[1..], callback)
      case None => None
      case Some(i) => Some(i + 1)
  }

  /**
   * The walk `Paged` makes over the responses, starting from a request
   * whose page token is `token`: each page's items go to the callback in
   * order; a call error ends the walk with that error; a callback error
   * ends it too, as nil when it wraps `io.EOF`; a page without a next
   * token ends it with nil; otherwise the next call carries the token.
   */
  ghost function Paging<Item>(responses: seq<Response<Item>>, token: Option<string>, callback: Item -> Option<Error>): (w: Walk<Item>)
    requires Ends(responses, callback)
    ensures 0 < |w.requested| <= |responses| && w.requested[0] == token
    decreases |responses|
  {
    match responses[0]
    case CallFailed(e) => Walk(Some(e), [], [token])
    case Page(items, next) =>
      match FirstRefused(items, callback)
      case Some(i) =>
        var e := callback(items[i]).value;
        Walk(if IsEOF(e) then None else Some(e), items[..i + 1], [token])
      case None =>
        if next.None? then Walk(None, items, [token])
        else
          EndsRest(responses, callback);
          var rest := Paging(responses[1..], next, callback);
          Walk(rest.err, items + rest.delivered, [token] + rest.requested)
  }

  /** A final response ends the walk after a single call, made with the request's token. */
  lemma PagingFinal<Item>(responses: seq<Response<Item>>, token: Option<string>, callback: Item -> Option<Error>)
    requires Ends(responses, callback) && Final(responses[0], callback)
    ensures Paging(responses, token, callback).requested == [token]
  {
  }

  /** The items of all pages, page after page. */
  ghost function AllItems<Item>(responses: seq<Response<Item>>): seq<Item>
  {
    if responses == [] || responses[0].CallFailed? then []
    else responses[0].items + AllItems(responses[1..])
  }

  /** Items reach the callback page by page and, within a page, in order: what was delivered is a prefix of all items. */
  lemma {:induction false} PagingDeliversInOrder<Item>(responses: seq<Response<Item>>, token: Option<string>, callback: Item -> Option<Error>)
    requires Ends(responses, callback)
    ensures Paging(responses, token, callback).delivered <= AllItems(responses)
    decreases |responses|
  {
    var w := Paging(responses, token, callback);
    match responses[0]
    case CallFailed(_) =>
    case Page(items, next) =>
      match FirstRefused(items, callback)
      case Some(i) =>
        assert items[..i + 1] <= items;
      case None =>
        if next.Some? {
          EndsRest(responses, callback);
          PagingDeliversInOrder(responses[1..], next, callback);
        }
  }

  /**
   * After the first call, each call carries the token the previous page
   * returned; the walk asks for a further page only after a page that
   * named one.
   */
  lemma {:induction false} PagingFollowsTokens<Item>(responses: seq<Response<Item>>, token: Option<string>, callback: Item -> Option<Error>)
    requires Ends(responses, callback)
    ensures var w := Paging(responses, token, callback);
      forall j :: 0 <= j < |w.requested| - 1 ==> responses[j].Page? && responses[j].next.Some? && w.requested[j + 1] == responses[j].next
    decreases |responses|
  {
    match responses[0]
    case CallFailed(_) =>
    case Page(items, next) =>
      if FirstRefused(items, callback).None? && next.Some? {
        EndsRest(responses, callback);
        PagingFollowsTokens(responses[1..], next, callback);
        var w := Paging(responses, token, callback);
        var rest := Paging(responses[1..], next, callback);
        assert w == Walk(rest.err, items + rest.delivered, [token] + rest.requested);
        forall j | 0 <= j < |w.requested| - 1
          ensures responses[j].Page? && responses[j].next.Some? && w.requested[j + 1] == responses[j].next
        {
          assert w.requested[j + 1] == rest.requested[j];
          if j > 0 {
            var i := j - 1;
            assert responses[1..][i] == responses[j];
            assert rest.requested[i + 1] == responses[1..][i].next;
          }
        }
      }
  }

  /**
   * The error of a walk is returned as it came: it is either a call's
   * error, or the error the callback gave for the last delivered item,
   * and then it does not wrap `io.EOF`.
   */
  lemma {:induction false} PagingErrorsAsIs<Item>(responses: seq<Response<Item>>, token: Option<string>, callback: Item -> Option<Error>)
    requires Ends(responses, callback)
    ensures var w := Paging(responses, token, callback);
      w.err.Some? ==>
        CallFailed(w.err.value) in responses
        || (0 < |w.delivered| && callback(w.delivered[|w.delivered| - 1]) == w.err && !IsEOF(w.err.value))
    decreases |responses|
  {
    match responses[0]
    case CallFailed(_) =>
    case Page(items, next) =>
      if FirstRefused(items, callback).None? && next.Some? {
        EndsRest(responses, callback);
        PagingErrorsAsIs(responses[1..], next, callback);
        var rest := Paging(responses[1..], next, callback);
        if rest.err.Some? && CallFailed(rest.err.value) in responses[1..] {
          var j :| 0 <= j < |responses[1..]| && responses[1..][j] == CallFailed(rest.err.value);
          assert responses[j + 1] == CallFailed(rest.err.value);
        }
        if 0 < |rest.delivered| {
          assert (items + rest.delivered)[|items + rest.delivered| - 1] == rest.delivered[|rest.delivered| - 1];
        }
      }
  }

  /** A callback error that wraps `io.EOF` ends the walk with nil at once. */
  lemma EOFStopsPaging<Item>(items: seq<Item>, next: Option<string>, rest: seq<Response<Item>>, token: Option<string>, callback: Item -> Option<Error>)
    requires 0 < |items| && callback(items[0]).Some? && IsEOF(callback(items[0]).value)
    ensures Ends([Page(items, next)] + rest, callback)
    ensures Paging([Page(items, next)] + rest, token, callback) == Walk(None, items[..1], [token])
  {
    assert ([Page(items, next)] + rest)[0] == Page(items, next);
    assert FirstRefused(items, callback) == Some(0);
    assert Final(([Page(items, next)] + rest)[0], callback);
  }

  /** The request `Paged` sends again and again; only its page token changes. */
  class PageRequest {
    var token: Option<string>

    constructor (token: Option<string>)
      ensures this.token == token
    {
      this.token := token;
    }

    method SetPageToken(t: string)
      modifies this
      ensures token == Some(t)
    {
      token := Some(t);
    }
  }

  /** One page that does not end the walk: its items are delivered and the walk goes on from its token. */
  lemma PagingStep<Item>(responses: seq<Response<Item>>, token: Option<string>, callback: Item -> Option<Error>)
    requires Ends(responses, callback) && !Final(responses[0], callback)
    ensures Ends(responses[1..], callback)
    ensures var rest := Paging(responses[1..], responses[0].next, callback);
      Paging(responses, token, callback) == Walk(rest.err, responses[0].items + rest.delivered, [token] + rest.requested)
  {
    EndsRest(responses, callback);
  }

  /** The walk over `responses`, after `delivered` and `requested` have already happened. */
  ghost function Extended<Item>(responses: seq<Response<Item>>, token: Option<string>, callback: Item -> Option<Error>,
                                delivered: seq<Item>, requested: seq<Option<string>>): Walk<Item>
    requires Ends(responses, callback)
  {
    var rest := Paging(responses, token, callback);
    Walk(rest.err, delivered + rest.delivered, requested + rest.requested)
  }

  /**
   * One turn of `Paged`'s loop: takes the next response and hands its
   * items over. `stop` says the walk ends here; otherwise the request
   * now carries the page's token and the rest of the walk follows.
   */
  method Visit<Item>(request: PageRequest, responses: seq<Response<Item>>, callback: Item -> Option<Error>,
                     ghost delivered: seq<Item>, ghost requested: seq<Option<string>>)
    returns (stop: bool, err: Option<Error>, ghost delivered': seq<Item>, ghost requested': seq<Option<string>>)
    requires Ends(responses, callback)
    modifies request
    ensures stop <==> Final(responses[0], callback)
    ensures stop ==> request.token == old(request.token)
    ensures stop ==> Extended(responses, old(request.token), callback, delivered, requested) == Walk(err, delivered', requested')
    ensures !stop ==> Ends(responses[1..], callback) && request.token == responses[0].next
    ensures !stop ==>
              Extended(responses, old(request.token), callback, delivered, requested)
              == Extended(responses[1..], request.token, callback, delivered', requested')
  {
    var response := responses[0];
    requested' := requested + [request.token];
    if response.CallFailed? {
      assert delivered + [] == delivered;
      return true, Some(response.err), delivered, requested';
    }
    var refused := Deliver(response.items, callback);
    if refused.Some? {
      var cbErr := callback(response.items[refused.value]);
      delivered' := delivered + response.items[..refused.value + 1];
      if IsEOF(cbErr.value) {
        return true, None, delivered', requested';
      }
      return true, cbErr, delivered', requested';
    }
    delivered' := delivered + response.items;
    if response.next.None? {
      return true, None, delivered', requested';
    }
    PagingStep(responses, request.token, callback);
    ghost var rest := Paging(responses[1..], response.next, callback);
    assert delivered + (response.items + rest.delivered) == delivered' + rest.delivered;
    assert requested + ([request.token] + rest.requested) == requested' + rest.requested;
    request.SetPageToken(response.next.value);
    return false, None, delivered', requested';
  }

  /** Hands the items to the callback in order until it refuses one; returns the refused index. */
  method Deliver<Item>(items: seq<Item>, callback: Item -> Option<Error>) returns (refused: Option<nat>)
    ensures refused == FirstRefused(items, callback)
  {
    var i := 0;
    while i < |items|
      invariant 0 <= i <= |items|
      invariant forall j :: 0 <= j < i ==> callback(items[j]).None?
    {
      if callback(items[i]).Some? {
        FirstRefusedIs(items, callback, i);
        return Some(i);
      }
      i := i + 1;
    }
    FirstRefusedNone(items, callback);
    return None;
  }

  lemma {:induction false} FirstRefusedIs<Item>(items: seq<Item>, callback: Item -> Option<Error>, i: nat)
    requires i < |items| && callback(items[i]).Some?
    requires forall j :: 0 <= j < i ==> callback(items[j]).None?
    ensures FirstRefused(items, callback) == Some(i)
  {
    if i > 0 {
      FirstRefusedIs(items[1..], callback, i - 1);
    }
  }

  lemma {:induction false} FirstRefusedNone<Item>(items: seq<Item>, callback: Item -> Option<Error>)
    requires forall j :: 0 <= j < |items| ==> callback(items[j]).None?
    ensures FirstRefused(items, callback).None?
  {
    if items != [] {
      FirstRefusedNone(items[1..], callback);
    }
  }

  /**
   * `Paged(ctx, baseReq, call, callback)`: calls the endpoint with the
   * request, hands the page's items to the callback, and moves the
   * request on to the next page token until the walk ends.
   */
  method Paged<Item>(request: PageRequest, responses: seq<Response<Item>>, callback: Item -> Option<Error>)
    returns (err: Option<Error>, ghost delivered: seq<Item>, ghost requested: seq<Option<string>>)
    requires Ends(responses, callback)
    modifies request
    ensures Walk(err, delivered, requested) == Paging(responses, old(request.token), callback)
    ensures |requested| > 0 && request.token == requested[|requested| - 1]
  {
    var calls := 0;
    delivered := [];
    requested := [];
    ghost var total := Paging(responses, request.token, callback);
    while true
      invariant 0 <= calls < |responses|
      invariant Ends(responses[calls..], callback)
      invariant total == Extended(responses[calls..], request.token, callback, delivered, requested)
      decreases |responses| - calls
    {
      var stop;
      ghost var token := request.token;
      stop, err, delivered, requested := Visit(request, responses[calls..], callback, delivered, requested);
      if stop {
        PagingFinal(responses[calls..], token, callback);
        return;
      }
      assert responses[calls..][1..] == responses[calls + 1..];
      calls := calls + 1;
    }
  }
}
