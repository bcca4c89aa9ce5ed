/**
 * The runner's own testing handle (runner/tbimpl.go): a sticky `failed`
 * flag, `Fail`/`FailNow`, and `Run`, which runs a body on a fresh child
 * handle and folds the child's failure into the parent.
 *
 * The body handed to `Run` is a Go closure; here it is a script of calls
 * made on the handle it receives. The goroutine and `WaitGroup` in `Run`
 * only exist so that `runtime.Goexit` inside the child ends the child and
 * nothing else; the model runs the child to completion sequentially.
 */
module TBImplementation {

  /** One call a test body makes on the handle it is given. */
  datatype Call =
    | Fail
    | FailNow
    | Helper
    | Log(message: string)
    | Run(name: string, body: seq<Call>)

  /** Where a body ends: the handle's final `failed` flag, and whether `Goexit` cut the body short. */
  datatype Finish = Finish(failed: bool, exited: bool)

  /**
   * Runs `body` on a handle whose flag starts as `failed`. `FailNow` ends
   * the body at once; a nested `Run` never ends the body that called it.
   */
  function Exec(failed: bool, body: seq<Call>): (r: Finish)
    ensures failed ==> r.failed
    ensures r.exited ==> r.failed
    decreases body
  {
    if body == [] then Finish(failed, false)
    else match body[0]
      case Fail => Exec(true, body[1..])
      case FailNow => Finish(true, true)
      case Helper => Exec(failed, body[1..])
      case Log(_) => Exec(failed, body[1..])
      case Run(_, b) => Exec(failed || Exec(false, b).failed, body[1..])
  }

  /** A call that fails the handle it is made on, at any depth of nesting. */
  ghost predicate CallFails(c: Call)
    decreases c
  {
    match c
      case Fail => true
      case FailNow => true
      case Helper => false
      case Log(_) => false
      case Run(_, b) => HasFailure(b)
  }

  /** Some call of the body, at any depth, is a `Fail` or a `FailNow`. */
  ghost predicate HasFailure(body: seq<Call>)
    decreases body
  {
    exists i :: 0 <= i < |body| && CallFails(body[i])
  }

  /** The final flag is the starting flag or'ed with the body's own failure. */
  lemma {:induction false} ExecSticky(failed: bool, body: seq<Call>)
    ensures Exec(failed, body).failed == (failed || Exec(false, body).failed)
    decreases body
  {
    if body != [] {
      match body[0]
      case Fail =>
      case FailNow =>
      case Helper => ExecSticky(failed, body[1..]);
      case Log(_) => ExecSticky(failed, body[1..]);
      case Run(_, b) =>
        ExecSticky(failed || Exec(false, b).failed, body[1..]);
        ExecSticky(Exec(false, b).failed, body[1..]);
    }
  }

  /**
   * A body run on a fresh handle fails exactly when it contains a `Fail`
   * or `FailNow` somewhere: the first such call is always reached, since
   * only a `FailNow` ends a body early and that is itself a failure.
   */
  lemma {:induction false} FailsIffHasFailure(body: seq<Call>)
    ensures Exec(false, body).failed <==> HasFailure(body)
    decreases body
  {
    if body != [] {
      var rest := body[1..];
      FailsIffHasFailure(rest);
      assert HasFailure(rest) <==> exists i :: 1 <= i < |body| && CallFails(body[i]) by {
        if HasFailure(rest) {
          var i :| 0 <= i < |rest| && CallFails(rest[i]);
          assert body[i + 1] == rest[i];
        }
        if exists i :: 1 <= i < |body| && CallFails(body[i]) {
          var i :| 1 <= i < |body| && CallFails(body[i]);
          assert rest[i - 1] == body[i];
        }
      }
      match body[0]
      case Fail =>
        assert CallFails(body[0]);
      case FailNow =>
        assert CallFails(body[0]);
      case Helper =>
      case Log(_) =>
      case Run(_, b) =>
        FailsIffHasFailure(b);
        ExecSticky(Exec(false, b).failed, rest);
        if HasFailure(b) {
          assert CallFails(body[0]);
        }
    }
  }

  /** `FailNow` in a child run ends the child only: the parent carries on with the next call. */
  lemma ChildExitDoesNotStopParent(failed: bool, name: string, rest: seq<Call>)
    ensures Exec(failed, [Run(name, [FailNow])] + rest) == Exec(true, rest)
  {
    assert ([Run(name, [FailNow])] + rest)[1..] == rest;
  }

  /** The handle a test body receives. */
  class TBImpl {
    var failed: bool

    /** A zero-valued handle, as `&TBImpl{}` makes one. */
    constructor ()
      ensures !failed
    {
      failed := false;
    }

    /** Marks the handle failed and lets the body carry on. */
    method Fail()
      modifies this
      ensures failed
    {
      failed := true;
    }

    /** Marks the handle failed; `exit` says the calling body ends here (`runtime.Goexit`). */
    method FailNow() returns (exit: bool)
      modifies this
      ensures failed && exit
    {
      failed := true;
      exit := true;
    }

    /**
     * Runs `body` on a fresh child handle to its end and reports whether
     * the child stayed clean; a child failure makes the parent fail too.
     */
    method Run(name: string, body: seq<Call>) returns (ok: bool)
      modifies this
      ensures ok <==> !HasFailure(body)
      ensures ok == !Exec(false, body).failed
      ensures failed == (old(failed) || !ok)
      decreases body, 1
    {
      var child := new TBImpl();
      var _ := child.Execute(body);
      failed := failed || child.failed;
      ok := !child.failed;
      FailsIffHasFailure(body);
    }

    /** A test body run on this handle: one call after another until the end or a `FailNow`. */
    method Execute(body: seq<Call>) returns (exited: bool)
      modifies this
      ensures Finish(failed, exited) == Exec(old(failed), body)
      decreases body, 0
    {
      var i := 0;
      while i < |body|
        invariant 0 <= i <= |body|
        invariant Exec(old(failed), body) == Exec(failed, body[i..])
        decreases |body| - i
      {
        assert body[i..][1..] == body[i + 1..];
        match body[i] {
          case Fail =>
            Fail();
          case FailNow =>
            exited := FailNow();
            return;
          case Helper =>
          case Log(_) =>
          case Run(name, b) =>
            var _ := Run(name, b);
        }
        i := i + 1;
      }
      exited := false;
    }
  }
}
