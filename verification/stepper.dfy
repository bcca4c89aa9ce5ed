/**
 * The stepper of stepper.go as objects: a `Stepper` keeps its steps in
 * registration order, and each run gives every step a fresh `Asserter`
 * whose fields the step's calls update in place. The methods are proved
 * against the functions of `StepperSpec`.
 */
module Stepper {
  import opened Wrappers
  import opened Text
  import opened Values
  import opened StepperSpec

  /** The cancellable context of one run (`context.WithCancel`): cancellation is a flag that only ever becomes true. */
  class RunContext {
    var cancelled: bool

    constructor()
      ensures !cancelled
    {
      cancelled := false;
    }

    /** `cancel()`. */
    method Cancel()
      modifies this
      ensures cancelled
    {
      cancelled := true;
    }
  }

  /** The outer test handle (`RequiresTB`) whose `Log` receives `Logf` output. */
  class OuterTB {
    var logged: seq<string>

    constructor()
      ensures logged == []
    {
      logged := [];
    }

    method Log(message: string)
      modifies this
      ensures logged == old(logged) + [message]
    {
      logged := logged + [message];
    }
  }

  /** `asserter`: the per-step log, failure flag and stack, with the run's `cancel` and the outer handle. */
  class Asserter {
    var logLines: seq<LogLine>
    var failed: bool
    var failStack: seq<string>
    const cancelCtx: RunContext
    const t: OuterTB

    constructor(t: OuterTB, cancelCtx: RunContext)
      ensures State() == Fresh && this.t == t && this.cancelCtx == cancelCtx
    {
      this.t := t;
      this.cancelCtx := cancelCtx;
      logLines := [];
      failed := false;
      failStack := [];
    }

    function State(): StepState
      reads this
    {
      StepState(logLines, failed, failStack)
    }

    function World(): World
      reads this, cancelCtx, t
    {
      StepperSpec.World(State(), cancelCtx.cancelled, t.logged)
    }

    /** `log`: appends one line without fields. */
    method AppendLog(level: string, message: string)
      modifies this
      ensures logLines == old(logLines) + [Line(level, message)]
      ensures failed == old(failed) && failStack == old(failStack)
    {
      logLines := logLines + [Line(level, message)];
    }

    /** `Log`: a DEBUG line in this step's log. */
    method Log(message: string)
      modifies this
      ensures logLines == old(logLines) + [Line("DEBUG", message)]
      ensures failed == old(failed) && failStack == old(failStack)
    {
      AppendLog("DEBUG", message);
    }

    /** `Logf`: goes to the outer test handle, not to this step's log. */
    method Logf(message: string)
      modifies t
      ensures t.logged == old(t.logged) + [message]
    {
      t.Log(message);
    }

    /** `FailNow`: marks the step failed, cancels the run and unwinds the body. */
    method FailNow() returns (sig: Signal)
      modifies this, cancelCtx
      ensures failed && cancelCtx.cancelled && sig == EarlyExit
      ensures logLines == old(logLines) && failStack == old(failStack)
    {
      failed := true;
      cancelCtx.Cancel();
      sig := EarlyExit;
    }

    /** `Fatal`/`Fatalf`: a FATAL line, then `FailNow`. */
    method Fatal(message: string) returns (sig: Signal)
      modifies this, cancelCtx
      ensures failed && cancelCtx.cancelled && sig == EarlyExit
      ensures logLines == old(logLines) + [Line("FATAL", message)] && failStack == old(failStack)
    {
      AppendLog("FATAL", message);
      sig := FailNow();
    }

    /** `Error`/`Errorf`: `Log("ERROR", message)`, then the step is failed but goes on. */
    method Error(message: string)
      modifies this
      ensures failed
      ensures logLines == old(logLines) + [Line("DEBUG", "ERROR" + message)] && failStack == old(failStack)
    {
      Log("ERROR" + message);
      failed := true;
    }

    /** `NoError`: `Fatal(err)` when there is an error. */
    method NoError(err: Option<Error>) returns (sig: Signal)
      modifies this, cancelCtx
      ensures World() == StepperSpec.Perform(old(World()), Action.NoError(err)).world
      ensures sig == StepperSpec.Perform(old(World()), Action.NoError(err)).signal
      ensures sig.Continue? <==> err.None?
    {
      sig := Continue;
      if err.Some? {
        sig := Fatal(ErrorText(err.value));
      }
    }

    /** `Equal`: `Fatalf` when the nil, message or deep comparison says the values differ. */
    method Equal(want: Value, got: Value) returns (sig: Signal)
      modifies this, cancelCtx
      ensures World() == StepperSpec.Perform(old(World()), Action.Equal(want, got)).world
      ensures sig == StepperSpec.Perform(old(World()), Action.Equal(want, got)).signal
      ensures (got.NilInterface? || want.NilInterface?) ==> (sig.Continue? <==> got == want)
    {
      sig := Continue;
      var failure := AsserterEqualFailure(want, got);
      if failure.Some? {
        sig := Fatal(failure.value);
      }
    }

    /** `CodeError`: `Fatalf` unless `status.FromError` finds `code` in `err`, wrapped or not. */
    method CodeError(err: Option<Error>, code: Code) returns (sig: Signal)
      modifies this, cancelCtx
      ensures World() == StepperSpec.Perform(old(World()), Action.CodeError(err, code)).world
      ensures sig == StepperSpec.Perform(old(World()), Action.CodeError(err, code)).signal
      ensures sig.Continue? <==> HasCode(err, code)
    {
      sig := Continue;
      var failure := CodeErrorFailure(err, code);
      if failure.Some? {
        sig := Fatal(failure.value);
      }
    }

    /** One call of a step body. */
    method Perform(act: Action) returns (sig: Signal)
      modifies this, cancelCtx, t
      ensures World() == StepperSpec.Perform(old(World()), act).world
      ensures sig == StepperSpec.Perform(old(World()), act).signal
    {
      match act
      case Log(m) =>
        Log(m);
        sig := Continue;
      case Logf(m) =>
        Logf(m);
        sig := Continue;
      case Error(m) =>
        Error(m);
        sig := Continue;
      case Fatal(m) =>
        sig := Fatal(m);
      case FailNow =>
        sig := FailNow();
      case NoError(err) =>
        sig := NoError(err);
      case Equal(want, got) =>
        sig := Equal(want, got);
      case CodeError(err, code) =>
        sig := CodeError(err, code);
      case Panic(v, stack) =>
        sig := Panicked(v, stack);
    }

    /** `step.fn(ctx, asserter)`: the body's calls in order, until one does not return. */
    method RunBody(script: seq<Action>) returns (sig: Signal)
      modifies this, cancelCtx, t
      ensures StepperSpec.Effect(World(), sig) == ExecScript(old(World()), script)
    {
      sig := Continue;
      var i := 0;
      while i < |script| && sig.Continue?
        invariant 0 <= i <= |script|
        invariant sig.Continue? ==> ExecScript(old(World()), script) == ExecScript(World(), script[i..])
        invariant !sig.Continue? ==> ExecScript(old(World()), script) == StepperSpec.Effect(World(), sig)
      {
        assert script[i..][1..] == script[i + 1..];
        sig := Perform(script[i]);
        i := i + 1;
      }
      if sig.Continue? {
        assert script[i..] == [];
      }
    }

    /** The deferred `recover`: any panic but `FailNow`'s unwinding fails the step with a FATAL line and the filtered stack. */
    method RecoverFrom(sig: Signal)
      modifies this
      ensures World() == Recover(StepperSpec.Effect(old(World()), sig))
    {
      if sig.Panicked? {
        AppendLog("FATAL", "Test Step Panic: " + sig.value);
        failed := true;
        failStack := FilterStack(Split(sig.stack, '\n'));
      }
    }
  }

  /** The stack filter: keep the first line, skip to the first later panic.go line, keep everything after it. */
  method FilterStack(fullStack: seq<string>) returns (filtered: seq<string>)
    requires 0 < |fullStack|
    ensures filtered == FilteredStack(fullStack)
  {
    filtered := [fullStack[0]];
    var collect := false;
    var rest := fullStack[1..];
    ghost var k := FirstPanicFrame(fullStack, 1);
    for i := 0 to |rest|
      invariant collect <==> k <= i
      invariant filtered == [fullStack[0]] + (if collect then fullStack[k + 1..i + 1] else [])
    {
      var line := rest[i];
      assert line == fullStack[i + 1];
      if collect {
        filtered := filtered + [line];
      } else if Contains(line, PanicFile) {
        collect := true;
      }
    }
  }

  /** `step`: a description, the body, and the asserter of its latest run. */
  class Step {
    const desc: string
    const script: seq<Action>
    var asserter: Asserter?

    constructor(desc: string, script: seq<Action>)
      ensures this.desc == desc && this.script == script && asserter == null
    {
      this.desc := desc;
      this.script := script;
      asserter := null;
    }
  }

  /** The descriptions of `steps`, in order. */
  function DescsOf(steps: seq<Step>): (r: seq<string>)
    ensures |r| == |steps| && forall j :: 0 <= j < |steps| ==> r[j] == steps[j].desc
  {
    seq(|steps|, j requires 0 <= j < |steps| => steps[j].desc)
  }

  /** The bodies of `steps`, in order. */
  function ScriptsOf(steps: seq<Step>): (r: seq<seq<Action>>)
    ensures |r| == |steps| && forall j :: 0 <= j < |steps| ==> r[j] == steps[j].script
  {
    seq(|steps|, j requires 0 <= j < |steps| => steps[j].script)
  }

  /** The outcome of a run: it passed, or it called `t.FailNow()` after the step at `index`. */
  datatype RunOutcome = Passed | FailedNow(index: nat)

  const LogWithoutStep := "Log called on stepper without a current step"

  class Stepper {
    const name: string
    var steps: seq<Step>
    var current: Asserter?

    /** Every registered step is its own object. */
    ghost predicate Valid()
      reads this
    {
      forall i, j :: 0 <= i < j < |steps| ==> steps[i] != steps[j]
    }

    /** `NewStepper`. */
    constructor(name: string)
      ensures Valid() && this.name == name && steps == [] && current == null
    {
      this.name := name;
      steps := [];
      current := null;
    }

    /** `StepC`: one new step at the end; the earlier steps and their order are unchanged. */
    method StepC(desc: string, script: seq<Action>)
      requires Valid()
      modifies this
      ensures Valid()
      ensures |steps| == |old(steps)| + 1 && steps[..|old(steps)|] == old(steps)
      ensures fresh(steps[|steps| - 1])
      ensures steps[|steps| - 1].desc == desc && steps[|steps| - 1].script == script
      ensures current == old(current)
    {
      var s := new Step(desc, script);
      steps := steps + [s];
    }

    /** `Step`: as `StepC`, for a body that ignores its context. */
    method Step(desc: string, script: seq<Action>)
      requires Valid()
      modifies this
      ensures Valid()
      ensures |steps| == |old(steps)| + 1 && steps[..|old(steps)|] == old(steps)
      ensures fresh(steps[|steps| - 1])
      ensures steps[|steps| - 1].desc == desc && steps[|steps| - 1].script == script
      ensures current == old(current)
    {
      StepC(desc, script);
    }

    /** `Log`: appends to the current step's asserter; without one it panics with `LogWithoutStep`. */
    method Log(level: string, message: string, fields: map<string, string>) returns (panicked: Option<string>)
      modifies current
      ensures panicked == if current == null then Some(LogWithoutStep) else None
      ensures current != null ==> current.logLines == old(current.logLines) + [LogLine(level, message, fields)]
      ensures current != null ==> current.failed == old(current.failed) && current.failStack == old(current.failStack)
    {
      if current == null {
        return Some(LogWithoutStep);
      }
      current.logLines := current.logLines + [LogLine(level, message, fields)];
      return None;
    }

    /** One iteration of `RunStepsC`: a fresh asserter becomes the current one and the step's, the body runs and a panic is recovered. */
    method RunOne(step: Step, t: OuterTB, ctx: RunContext) returns (a: Asserter)
      requires !ctx.cancelled
      modifies this, step, t, ctx
      ensures fresh(a) && a.t == t && a.cancelCtx == ctx
      ensures current == a && step.asserter == a && steps == old(steps)
      ensures a.World() == RunStep(step.script, false, old(t.logged))
      ensures !a.failed ==> !ctx.cancelled
    {
      a := new Asserter(t, ctx);
      current := a;
      step.asserter := a;
      var sig := a.RunBody(step.script);
      a.RecoverFrom(sig);
    }

    /** `RunOne` on step `i` of a run whose first `i` steps passed, described by the trace it extends. */
    method RunNext(i: nat, t: OuterTB, ctx: RunContext, ghost scripts: seq<seq<Action>>, ghost done: seq<StepState>, ghost o0: seq<string>)
      returns (a: Asserter)
      requires Valid() && i < |steps| && scripts == ScriptsOf(steps) && |done| == i && !ctx.cancelled
      requires forall j :: 0 <= j < i ==> steps[j].asserter != null && steps[j].asserter.State() == done[j]
      requires RanUpTo(scripts, o0, done, t.logged)
      modifies this, steps[i], t, ctx
      ensures steps == old(steps) && Valid() && fresh(a) && current == a && steps[i].asserter == a
      ensures forall j :: 0 <= j < i + 1 ==> steps[j].asserter != null && steps[j].asserter.State() == (done + [a.State()])[j]
      ensures a.failed ==> Run(scripts, o0) == RunTrace(done + [a.State()], ctx.cancelled, t.logged)
      ensures !a.failed ==> !ctx.cancelled && RanUpTo(scripts, o0, done + [a.State()], t.logged)
    {
      ghost var o := t.logged;
      a := RunOne(steps[i], t, ctx);
      ghost var w := a.World();
      assert forall j :: 0 <= j < i + 1 ==> steps[j].asserter != null && steps[j].asserter.State() == (done + [a.State()])[j];
      PassedFromRun(scripts, o0, done, o);
      AdvanceRun(scripts, i, done, o0, o, w);
      if !w.step.failed {
        PassedFromExtend(scripts, o0, done, o, w);
      }
    }

    /** The deferred `cancel()` of a run; it leaves every asserter as it is. */
    method EndRun(ctx: RunContext, ghost states: seq<StepState>)
      requires |states| <= |steps|
      requires forall j :: 0 <= j < |states| ==> steps[j].asserter != null && steps[j].asserter.State() == states[j]
      modifies ctx
      ensures ctx.cancelled
      ensures forall j :: 0 <= j < |states| ==> steps[j].asserter != null && steps[j].asserter.State() == states[j]
    {
      ctx.Cancel();
    }

    /** What a failed run prints after the step announcements, read from the asserters of the steps that ran. */
    method FailureLines(k: nat, ghost states: seq<StepState>) returns (r: seq<Event>)
      requires |states| == k + 1 && k < |steps|
      requires forall j :: 0 <= j < |states| ==> steps[j].asserter != null && steps[j].asserter.State() == states[j]
      ensures r == FailureReport(DescsOf(steps), states)
    {
      var last := steps[k].asserter;
      r := OkReports(k, states);
      r := r + [StepFailed(steps[k].desc, last.logLines)];
      if |last.failStack| > 0 {
        r := r + [Stack(last.failStack)];
      }
    }

    /** The OK lines of the failure report: the first `n` steps, in order, each with its asserter's log. */
    method OkReports(n: nat, ghost states: seq<StepState>) returns (r: seq<Event>)
      requires n <= |steps| && n <= |states|
      requires forall j :: 0 <= j < n ==> steps[j].asserter != null && steps[j].asserter.logLines == states[j].logLines
      ensures r == Oks(DescsOf(steps), states, n)
    {
      r := [];
      for j := 0 to n
        invariant r == Oks(DescsOf(steps), states, j)
      {
        r := r + [StepOk(steps[j].desc, steps[j].asserter.logLines)];
      }
    }

    /**
     * `RunStepsC`: runs the steps in registration order on fresh asserters,
     * stops at the first failed step, reports every earlier step as OK and
     * then the failed one, and calls `t.FailNow()`.
     */
    method RunSteps(t: OuterTB) returns (outcome: RunOutcome, report: seq<Event>)
      requires Valid()
      modifies this, steps, t
      ensures steps == old(steps) && Valid()
      ensures var trace := Run(ScriptsOf(steps), old(t.logged));
        && report == Transcript(name, DescsOf(steps), trace.states)
        && outcome == (if FailedAt(trace).Some? then FailedNow(FailedAt(trace).value) else Passed)
        && t.logged == trace.outer
        && forall j :: 0 <= j < |trace.states| ==> steps[j].asserter != null && steps[j].asserter.State() == trace.states[j]
    {
      var ctx := new RunContext();
      var scripts := ScriptsOf(steps);
      var descs := DescsOf(steps);
      ghost var done: seq<StepState> := [];
      report := [RunBanner(name)];
      outcome := Passed;
      var i := 0;
      while i < |steps|
        invariant 0 <= i <= |steps| && steps == old(steps) && Valid()
        invariant |done| == i && !ctx.cancelled
        invariant forall j :: 0 <= j < i ==> steps[j].asserter != null && steps[j].asserter.State() == done[j]
        invariant RanUpTo(scripts, old(t.logged), done, t.logged)
        invariant report == [RunBanner(name)] + Started(descs, i)
      {
        var step := steps[i];
        report := report + [StepStarted(step.desc)];
        assert report == [RunBanner(name)] + Started(descs, i + 1);
        var a := RunNext(i, t, ctx, scripts, done, old(t.logged));
        ghost var states := done + [a.State()];
        ghost var cancelled := ctx.cancelled;
        if a.failed {
          var lines := FailureLines(i, states);
          report := report + lines;
          EndRun(ctx, states);
          FailedRun(name, scripts, descs, old(t.logged), states, cancelled, t.logged);
          outcome := FailedNow(i);
          return;
        }
        done := states;
        i := i + 1;
      }
      EndRun(ctx, done);
      PassedRun(name, scripts, descs, old(t.logged), done, t.logged);
    }
  }

  /** The states of the steps already run, in front of the trace of the rest. */
  function Prepend(done: seq<StepState>, rest: RunTrace): RunTrace
  {
    RunTrace(done + rest.states, rest.cancelled, rest.outer)
  }

  /** One more step of the run: after a failure the trace ends, otherwise it goes on from the next step. */
  lemma AdvanceRun(scripts: seq<seq<Action>>, i: nat, done: seq<StepState>, o0: seq<string>, o: seq<string>, w: World)
    requires i < |scripts| && RunFrom(scripts, false, o0) == Prepend(done, RunFrom(scripts[i..], false, o))
    requires w == RunStep(scripts[i], false, o)
    ensures w.step.failed ==> RunFrom(scripts, false, o0) == RunTrace(done + [w.step], w.cancelled, w.outer)
    ensures !w.step.failed ==> (!w.cancelled
      && RunFrom(scripts, false, o0) == Prepend(done + [w.step], RunFrom(scripts[i + 1..], false, w.outer)))
  {
    assert scripts[i..][1..] == scripts[i + 1..];
  }

  /**
   * The first `|done|` steps ran from the outer log `o0`, all passed with
   * the states `done`, and left the outer log `o`.
   */
  ghost predicate RanUpTo(scripts: seq<seq<Action>>, o0: seq<string>, done: seq<StepState>, o: seq<string>)
  {
    PassedFrom(scripts, o0, done, o)
  }

  ghost predicate PassedFrom(scripts: seq<seq<Action>>, o0: seq<string>, done: seq<StepState>, o: seq<string>)
    decreases |done|, 1
  {
    if done == [] then o == o0 else PassedFirst(scripts, o0, done, o)
  }

  /** The first of those steps passed from `o0`, and the others ran after it. */
  ghost predicate PassedFirst(scripts: seq<seq<Action>>, o0: seq<string>, done: seq<StepState>, o: seq<string>)
    requires done != []
    decreases |done|, 0
  {
    && scripts != []
    && var w := RunStep(scripts[0], false, o0);
    && !w.step.failed && w.step == done[0]
    && PassedFrom(scripts[1..], w.outer, done[1..], o)
  }

  /** Those steps are the start of the run, which then goes on from the next step. */
  lemma {:induction false} PassedFromRun(scripts: seq<seq<Action>>, o0: seq<string>, done: seq<StepState>, o: seq<string>)
    requires PassedFrom(scripts, o0, done, o)
    ensures |done| <= |scripts|
    ensures RunFrom(scripts, false, o0) == Prepend(done, RunFrom(scripts[|done|..], false, o))
    decreases |done|
  {
    if done != [] {
      var w := RunStep(scripts[0], false, o0);
      PassedFromRun(scripts[1..], w.outer, done[1..], o);
      assert scripts[1..][|done| - 1..] == scripts[|done|..];
      assert done == [done[0]] + done[1..];
    }
  }

  /** A step that passes after them extends them. */
  lemma {:induction false} PassedFromExtend(scripts: seq<seq<Action>>, o0: seq<string>, done: seq<StepState>, o: seq<string>, w: World)
    requires PassedFrom(scripts, o0, done, o) && |done| < |scripts|
    requires w == RunStep(scripts[|done|], false, o) && !w.step.failed
    ensures PassedFrom(scripts, o0, done + [w.step], w.outer)
    decreases |done|
  {
    if done == [] {
      assert PassedFrom(scripts[1..], w.outer, [], w.outer);
    } else {
      var w0 := RunStep(scripts[0], false, o0);
      PassedFromExtend(scripts[1..], w0.outer, done[1..], o, w);
      assert (done + [w.step])[1..] == done[1..] + [w.step];
    }
  }

  /** A run in which every step passed: its trace is the states of all steps, and the report only announces them. */
  lemma PassedRun(name: string, scripts: seq<seq<Action>>, descs: seq<string>, o0: seq<string>, done: seq<StepState>, o: seq<string>)
    requires RanUpTo(scripts, o0, done, o) && |done| == |scripts| == |descs|
    ensures var trace := Run(scripts, o0);
      && trace.states == done && trace.outer == o && FailedAt(trace).None?
      && Transcript(name, descs, trace.states) == [RunBanner(name)] + Started(descs, |done|)
  {
    PassedFromRun(scripts, o0, done, o);
    assert scripts[|done|..] == [];
    PassedFromPassed(scripts, o0, done, o);
  }

  /** Steps that ran before the current one all passed. */
  lemma {:induction false} PassedFromPassed(scripts: seq<seq<Action>>, o0: seq<string>, done: seq<StepState>, o: seq<string>)
    requires PassedFrom(scripts, o0, done, o)
    ensures forall j :: 0 <= j < |done| ==> !done[j].failed
    decreases |done|
  {
    if done != [] {
      var w := RunStep(scripts[0], false, o0);
      PassedFromPassed(scripts[1..], w.outer, done[1..], o);
      assert forall j :: 1 <= j < |done| ==> done[j] == done[1..][j - 1];
    }
  }

  /** A run whose last step failed: the trace ends there and the report lists the failure. */
  lemma FailedRun(name: string, scripts: seq<seq<Action>>, descs: seq<string>, o0: seq<string>, states: seq<StepState>, c: bool, o: seq<string>)
    requires Run(scripts, o0) == RunTrace(states, c, o) && |scripts| == |descs|
    requires 0 < |states| && states[|states| - 1].failed
    ensures var trace := Run(scripts, o0);
      && FailedAt(trace) == Some(|states| - 1)
      && Transcript(name, descs, trace.states)
        == [RunBanner(name)] + Started(descs, |states|) + FailureReport(descs, states)
  {
  }

}
