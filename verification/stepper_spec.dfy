/**
 * The meaning of a stepper run (stepper.go), as pure functions. Step bodies
 * are scripts of the calls a body makes on its asserter; they run until the
 * first call that unwinds the body (`FailNow`, through `Fatal` and the
 * failing assertions, or a panic). The `panic`/`recover` pair becomes the
 * explicit `Signal` a call returns.
 */
module StepperSpec {
  import opened Wrappers
  import opened Text
  import opened Values

  datatype LogLine = LogLine(level: string, message: string, fields: map<string, string>)

  /** A log line written by the asserter itself, without fields. */
  function Line(level: string, message: string): LogLine
  {
    LogLine(level, message, map[])
  }

  /** One call a step body makes on its asserter. Messages are already rendered. */
  datatype Action =
    | Log(message: string)                      // Log
    | Logf(message: string)                     // Logf
    | Error(message: string)                    // Error, Errorf
    | Fatal(message: string)                    // Fatal, Fatalf
    | FailNow
    | NoError(err: Option<Error>)
    | Equal(want: Value, got: Value)
    | CodeError(err: Option<Error>, code: Code)
    | Panic(value: string, stack: string)       // a panic, with the text `debug.Stack()` gives at recovery

  /** How a call ends: it returns, it unwinds the body through `FailNow`, or it panics. */
  datatype Signal = Continue | EarlyExit | Panicked(value: string, stack: string)

  /** The value `FailNow` panics with. */
  const EarlyTestExit := "EARLY EXIT"

  /** The file whose frames mark the start of the interesting part of a stack. */
  const PanicFile := "panic.go"

  /** The fields of one step's asserter. */
  datatype StepState = StepState(logLines: seq<LogLine>, failed: bool, failStack: seq<string>)

  const Fresh := StepState([], false, [])

  /** Everything a step body can change: its asserter, the run's cancellation, the outer test's log. */
  datatype World = World(step: StepState, cancelled: bool, outer: seq<string>)

  datatype Effect = Effect(world: World, signal: Signal)

  /** `FailNow`: marks the step failed, cancels the run, unwinds the body. */
  function FailNowEffect(w: World): (e: Effect)
    ensures e.signal == EarlyExit && e.world.step.failed && e.world.cancelled
    ensures e.world.step.logLines == w.step.logLines && e.world.outer == w.outer
  {
    Effect(w.(step := w.step.(failed := true), cancelled := true), EarlyExit)
  }

  /** `Fatal`/`Fatalf`: a FATAL line, then `FailNow`. */
  function FatalEffect(w: World, message: string): (e: Effect)
    ensures e.signal == EarlyExit && e.world.step.failed && e.world.cancelled
    ensures e.world.step.logLines == w.step.logLines + [Line("FATAL", message)]
  {
    FailNowEffect(w.(step := w.step.(logLines := w.step.logLines + [Line("FATAL", message)])))
  }

  /**
   * The failure message of the asserter's `Equal`, or `None` when it passes.
   * Unlike assert.go, it asks first whether `got` is a message.
   */
  function AsserterEqualFailure(want: Value, got: Value): (r: Option<string>)
    ensures (got.NilInterface? || want.NilInterface?) ==> (r.None? <==> got == want)
    ensures !got.NilInterface? && !want.NilInterface? && IsProto(got) ==> (r.None? <==> ProtoEqual(got, want))
    ensures !got.NilInterface? && !want.NilInterface? && !IsProto(got) ==> (r.None? <==> DeepEqual(got, want))
  {
    if got.NilInterface? || want.NilInterface? then
      if got != want then Some("got " + Show(got) + ", want " + Show(want)) else None
    else if IsProto(got) then
      if !IsProto(want) then Some("want was a proto, got was not (" + TypeOf(got) + ")")
      else if !ProtoEqual(got, want) then Some("got " + Show(got) + ", want " + Show(want))
      else None
    else if !DeepEqual(got, want) then Some("got " + Show(got) + ", want " + Show(want))
    else None
  }

  /** A typed nil message `want` is still a message, so against a valid `got` the step's `Equal` reports "got …, want <nil>". */
  lemma AsserterEqualNilMessage(t: string, fields: seq<Value>, c: int)
    ensures AsserterEqualFailure(NilMessage(t), Message(t, fields, c)) == Some("got " + Show(Message(t, fields, c)) + ", want <nil>")
    ensures AsserterEqualFailure(NilMessage(t), NilMessage(t)).None?
  {
    assert Show(NilMessage(t)) == "<nil>";
    assert !ProtoEqual(Message(t, fields, c), NilMessage(t));
    assert "got " + Show(Message(t, fields, c)) + ", want " + Show(NilMessage(t)) == "got " + Show(Message(t, fields, c)) + ", want <nil>";
  }

  /** A failure message, when there is one, becomes `Fatalf`. */
  function FatalIf(w: World, failure: Option<string>): (e: Effect)
  {
    match failure
    case None => Effect(w, Continue)
    case Some(m) => FatalEffect(w, m)
  }

  /** The effect of one call on the asserter. */
  function Perform(w: World, act: Action): (e: Effect)
    ensures w.step.failed ==> e.world.step.failed
    ensures w.cancelled ==> e.world.cancelled
    ensures !w.cancelled && e.world.cancelled ==> e.world.step.failed
    ensures e.signal.EarlyExit? ==> e.world.step.failed && e.world.cancelled
    ensures w.step.logLines <= e.world.step.logLines
    ensures e.world.step.failStack == w.step.failStack
    ensures !act.Panic? <==> !e.signal.Panicked?
  {
    match act
    case Log(m) => Effect(w.(step := w.step.(logLines := w.step.logLines + [Line("DEBUG", m)])), Continue)
    case Logf(m) => Effect(w.(outer := w.outer + [m]), Continue)
    case Error(m) =>
      // `t.Log("ERROR", msg)`: one DEBUG line whose text is "ERROR" directly followed by the message
      Effect(w.(step := w.step.(logLines := w.step.logLines + [Line("DEBUG", "ERROR" + m)], failed := true)), Continue)
    case Fatal(m) => FatalEffect(w, m)
    case FailNow => FailNowEffect(w)
    case NoError(err) => FatalIf(w, if err.None? then None else Some(ErrorText(err.value)))
    case Equal(want, got) => FatalIf(w, AsserterEqualFailure(want, got))
    case CodeError(err, code) => FatalIf(w, CodeErrorFailure(err, code))
    case Panic(v, stack) => Effect(w, Panicked(v, stack))
  }

  /** A body runs its calls in order until one of them does not return. */
  function ExecScript(w: World, script: seq<Action>): (e: Effect)
    ensures w.step.failed ==> e.world.step.failed
    ensures w.cancelled ==> e.world.cancelled
    ensures !w.cancelled && e.world.cancelled ==> e.world.step.failed
    ensures e.signal.EarlyExit? ==> e.world.step.failed && e.world.cancelled
    ensures w.step.logLines <= e.world.step.logLines
    ensures e.world.step.failStack == w.step.failStack
    decreases |script|, 1
  {
    if script == [] then Effect(w, Continue) else ExecFirst(w, script)
  }

  /** The first call of a non-empty body; the rest runs only if it returned. */
  function ExecFirst(w: World, script: seq<Action>): (e: Effect)
    requires script != []
    ensures w.step.failed ==> e.world.step.failed
    ensures w.cancelled ==> e.world.cancelled
    ensures !w.cancelled && e.world.cancelled ==> e.world.step.failed
    ensures e.signal.EarlyExit? ==> e.world.step.failed && e.world.cancelled
    ensures w.step.logLines <= e.world.step.logLines
    ensures e.world.step.failStack == w.step.failStack
    decreases |script|, 0
  {
    var e := Perform(w, script[0]);
    if !e.signal.Continue? then e else ExecScript(e.world, script[1..])
  }

  /** Index of the first line at or after `from` that names the panic machinery, or `|lines|`. */
  function FirstPanicFrame(lines: seq<string>, from: nat): (k: nat)
    requires from <= |lines|
    ensures from <= k <= |lines|
    ensures k < |lines| ==> Contains(lines[k], PanicFile)
    ensures forall j :: from <= j < k ==> !Contains(lines[j], PanicFile)
    decreases |lines| - from
  {
    if from == |lines| then from
    else if Contains(lines[from], PanicFile) then from
    else FirstPanicFrame(lines, from + 1)
  }

  /** The stack a panicking step keeps: the first line, then every line after the first later panic.go line. */
  function FilteredStack(lines: seq<string>): (r: seq<string>)
    requires 0 < |lines|
  {
    var k := FirstPanicFrame(lines, 1);
    [lines[0]] + (if k < |lines| then lines[k + 1..] else [])
  }

  /** The properties the stack filter promises. */
  lemma FilteredStackShape(lines: seq<string>)
    requires 0 < |lines|
    ensures var r := FilteredStack(lines); 0 < |r| && r[0] == lines[0] && |r| <= |lines|
    ensures (forall j :: 1 <= j < |lines| ==> !Contains(lines[j], PanicFile)) ==> FilteredStack(lines) == [lines[0]]
    ensures forall k ::
              (1 <= k < |lines| && Contains(lines[k], PanicFile) && forall j :: 1 <= j < k ==> !Contains(lines[j], PanicFile))
              ==> FilteredStack(lines) == [lines[0]] + lines[k + 1..]
  {
    var k := FirstPanicFrame(lines, 1);
    forall k' | 1 <= k' < |lines| && Contains(lines[k'], PanicFile) && (forall j :: 1 <= j < k' ==> !Contains(lines[j], PanicFile))
      ensures k' == k
    {
    }
  }

  /** The deferred recovery: a panic other than `FailNow`'s logs a FATAL line, fails the step and keeps the filtered stack. */
  function Recover(e: Effect): (w: World)
    ensures e.signal.Panicked? ==> w.step.failed
    ensures !e.signal.Panicked? ==> w == e.world
    ensures w.cancelled == e.world.cancelled && w.outer == e.world.outer
    ensures e.world.step.failed ==> w.step.failed
  {
    match e.signal
    case Panicked(v, stack) =>
      e.world.(step := StepState(e.world.step.logLines + [Line("FATAL", "Test Step Panic: " + v)], true,
                                 FilteredStack(Split(stack, '\n'))))
    case _ => e.world
  }

  /** One step: a fresh asserter, the body, then the recovery. */
  function RunStep(script: seq<Action>, cancelled: bool, outer: seq<string>): (w: World)
    ensures !cancelled && w.cancelled ==> w.step.failed
  {
    Recover(ExecScript(World(Fresh, cancelled, outer), script))
  }

  /** The asserter state a step's body leaves behind; it does not depend on the rest of the run. */
  function StepOf(script: seq<Action>): StepState
  {
    RunStep(script, false, []).step
  }

  /** What a body does to its asserter depends only on the asserter, not on cancellation or the outer log. */
  lemma {:induction false} ExecIndependent(s: StepState, c1: bool, o1: seq<string>, c2: bool, o2: seq<string>, script: seq<Action>)
    ensures ExecScript(World(s, c1, o1), script).world.step == ExecScript(World(s, c2, o2), script).world.step
    ensures ExecScript(World(s, c1, o1), script).signal == ExecScript(World(s, c2, o2), script).signal
    decreases |script|
  {
    if script != [] {
      var e1 := Perform(World(s, c1, o1), script[0]);
      var e2 := Perform(World(s, c2, o2), script[0]);
      assert e1.world.step == e2.world.step && e1.signal == e2.signal;
      if e1.signal.Continue? {
        ExecIndependent(e1.world.step, e1.world.cancelled, e1.world.outer, e2.world.cancelled, e2.world.outer, script[1..]);
        assert e1.world == World(e1.world.step, e1.world.cancelled, e1.world.outer);
        assert e2.world == World(e2.world.step, e2.world.cancelled, e2.world.outer);
      }
    }
  }

  lemma RunStepIndependent(script: seq<Action>, c: bool, o: seq<string>)
    ensures RunStep(script, c, o).step == StepOf(script)
  {
    ExecIndependent(Fresh, c, o, false, [], script);
  }

  /** The states of the steps that ran, the run's cancellation and the outer log at the end. */
  datatype RunTrace = RunTrace(states: seq<StepState>, cancelled: bool, outer: seq<string>)

  /** `RunStepsC`'s loop: the steps in order, stopping after the first one that failed. */
  function RunFrom(scripts: seq<seq<Action>>, cancelled: bool, outer: seq<string>): (t: RunTrace)
    ensures |t.states| <= |scripts|
    decreases |scripts|, 1
  {
    if scripts == [] then RunTrace([], cancelled, outer) else RunFirst(scripts, cancelled, outer)
  }

  /** One turn of that loop: the first step runs, and the run goes on only if it did not fail. */
  function RunFirst(scripts: seq<seq<Action>>, cancelled: bool, outer: seq<string>): (t: RunTrace)
    requires scripts != []
    ensures 0 < |t.states| <= |scripts|
    decreases |scripts|, 0
  {
    var w := RunStep(scripts[0], cancelled, outer);
    if w.step.failed then RunTrace([w.step], w.cancelled, w.outer)
    else
      var rest := RunFrom(scripts[1..], w.cancelled, w.outer);
      RunTrace([w.step] + rest.states, rest.cancelled, rest.outer)
  }

  /** A whole run: it starts from a context nobody has cancelled yet. */
  function Run(scripts: seq<seq<Action>>, outer: seq<string>): (t: RunTrace)
    ensures |t.states| <= |scripts|
  {
    RunFrom(scripts, false, outer)
  }

  /** The index of the step that failed, if the run stopped at one. */
  function FailedAt(t: RunTrace): (r: Option<nat>)
    ensures r.Some? ==> r.value < |t.states|
  {
    if t.states != [] && t.states[|t.states| - 1].failed then Some(|t.states| - 1) else None
  }

  /** Shape of a run: each step that ran has its own state, all but the last passed, and the run stops only at a failure. */
  ghost predicate TraceShape(t: RunTrace, scripts: seq<seq<Action>>)
  {
    && TraceStops(t, scripts)
    && (forall j :: 0 <= j < |t.states| ==> t.states[j] == StepOf(scripts[j]))
    && (forall j :: 0 <= j < |t.states| - 1 ==> !t.states[j].failed)
  }

  /** A run stops early only at a failed step, and runs a step whenever there is one. */
  ghost predicate TraceStops(t: RunTrace, scripts: seq<seq<Action>>)
  {
    && |t.states| <= |scripts|
    && (|t.states| == 0 <==> scripts == [])
    && (|t.states| < |scripts| ==> t.states[|t.states| - 1].failed)
  }

  lemma {:induction false} RunFromShape(scripts: seq<seq<Action>>, c: bool, o: seq<string>)
    ensures TraceShape(RunFrom(scripts, c, o), scripts)
    decreases |scripts|
  {
    if scripts != [] {
      var w := RunStep(scripts[0], c, o);
      RunStepIndependent(scripts[0], c, o);
      if !w.step.failed {
        RunFromShape(scripts[1..], w.cancelled, w.outer);
        var rest := RunFrom(scripts[1..], w.cancelled, w.outer);
        var t := RunFrom(scripts, c, o);
        assert t.states == [w.step] + rest.states;
        forall j | 1 <= j < |t.states| ensures t.states[j] == StepOf(scripts[j]) {
          assert t.states[j] == rest.states[j - 1];
          assert scripts[1..][j - 1] == scripts[j];
        }
      }
    }
  }

  /** The first step whose body fails. */
  ghost predicate FirstFailure(scripts: seq<seq<Action>>, k: int)
  {
    0 <= k < |scripts| && StepOf(scripts[k]).failed && forall j :: 0 <= j < k ==> !StepOf(scripts[j]).failed
  }

  /**
   * Fail-fast: the run stops at step `k` exactly when `k` is the first step
   * whose body fails; the steps before it passed and no step after it ran.
   * With no failing step every step ran.
   */
  lemma FailFast(scripts: seq<seq<Action>>, o: seq<string>)
    ensures var t := Run(scripts, o);
      forall k :: FailedAt(t) == Some(k) <==> FirstFailure(scripts, k)
    ensures var t := Run(scripts, o);
      FailedAt(t).Some? ==> |t.states| == FailedAt(t).value + 1
    ensures var t := Run(scripts, o);
      FailedAt(t).None? <==> |t.states| == |scripts| && forall j :: 0 <= j < |scripts| ==> !StepOf(scripts[j]).failed
  {
    var t := Run(scripts, o);
    RunFromShape(scripts, false, o);
    var n := |t.states|;
    forall k | FirstFailure(scripts, k) ensures FailedAt(t) == Some(k) {
      assert t.states[n - 1] == StepOf(scripts[n - 1]);
      assert k < n ==> t.states[k] == StepOf(scripts[k]);
    }
    if FailedAt(t).None? && n > 0 {
      assert t.states[n - 1] == StepOf(scripts[n - 1]);
    }
    forall j | FailedAt(t).None? && 0 <= j < |scripts| ensures !StepOf(scripts[j]).failed {
      assert t.states[j] == StepOf(scripts[j]);
    }
  }

  /** What happens up to the failing step does not depend on the steps registered after it. */
  lemma {:induction false} RunIgnoresLaterSteps(scripts: seq<seq<Action>>, more: seq<seq<Action>>, c: bool, o: seq<string>)
    requires FailedAt(RunFrom(scripts, c, o)).Some?
    ensures RunFrom(scripts + more, c, o) == RunFrom(scripts, c, o)
    decreases |scripts|
  {
    var w := RunStep(scripts[0], c, o);
    assert (scripts + more)[0] == scripts[0];
    if !w.step.failed {
      assert (scripts + more)[1..] == scripts[1..] + more;
      RunFromShape(scripts, c, o);
      RunIgnoresLaterSteps(scripts[1..], more, w.cancelled, w.outer);
    }
  }

  /** Every step that starts sees a run that has not been cancelled, and a cancelled run ended at a failure. */
  lemma {:induction false} CancellationEndsRun(scripts: seq<seq<Action>>, o: seq<string>)
    ensures var t := RunFrom(scripts, false, o); t.cancelled ==> FailedAt(t).Some?
    decreases |scripts|
  {
    if scripts != [] {
      var w := RunStep(scripts[0], false, o);
      if !w.step.failed {
        CancellationEndsRun(scripts[1..], w.outer);
        RunFromShape(scripts[1..], false, w.outer);
      }
    }
  }

  /** What the run prints: a banner, one line per step started and, on failure, the report of every step so far. */
  datatype Event =
    | RunBanner(name: string)
    | StepStarted(desc: string)
    | StepOk(desc: string, lines: seq<LogLine>)
    | StepFailed(desc: string, lines: seq<LogLine>)
    | Stack(frames: seq<string>)

  function Started(descs: seq<string>, n: nat): (r: seq<Event>)
    requires n <= |descs|
    ensures |r| == n && forall j :: 0 <= j < n ==> r[j] == StepStarted(descs[j])
  {
    seq(n, j requires 0 <= j < n => StepStarted(descs[j]))
  }

  function Oks(descs: seq<string>, states: seq<StepState>, n: nat): (r: seq<Event>)
    requires n <= |descs| && n <= |states|
    ensures |r| == n && forall j :: 0 <= j < n ==> r[j] == StepOk(descs[j], states[j].logLines)
  {
    seq(n, j requires 0 <= j < n && j < |descs| && j < |states| => StepOk(descs[j], states[j].logLines))
  }

  /** The failure report: each earlier step as OK, then the failing step, then its stack when it has one. */
  function FailureReport(descs: seq<string>, states: seq<StepState>): seq<Event>
    requires 0 < |states| <= |descs|
  {
    var k := |states| - 1;
    Oks(descs, states, k) + [StepFailed(descs[k], states[k].logLines)]
      + (if |states[k].failStack| > 0 then [Stack(states[k].failStack)] else [])
  }

  function Transcript(name: string, descs: seq<string>, states: seq<StepState>): seq<Event>
    requires |states| <= |descs|
  {
    [RunBanner(name)] + Started(descs, |states|)
      + (if states != [] && states[|states| - 1].failed then FailureReport(descs, states) else [])
  }

  /**
   * When step `k` fails, the report opens with the run's banner, starts
   * steps 0..k, then lists every earlier step as OK, in registration order
   * and with its own log lines, then the failing step, then its stack
   * exactly when it kept one; nothing else follows.
   * Without a failure it only announces each step. This holds of every
   * trace that stops like a run; `RunFromShape` shows that runs do, and
   * that each state in a run's trace is its step's own.
   */
  lemma FailureReportOrder(name: string, descs: seq<string>, scripts: seq<seq<Action>>, t: RunTrace)
    requires |descs| == |scripts| && TraceStops(t, scripts)
    ensures FailedAt(t).Some? ==>
        var k := FailedAt(t).value;
        var r := Transcript(name, descs, t.states);
        && 2 * k + 3 <= |r| <= 2 * k + 4
        && r[0] == RunBanner(name)
        && (forall j :: 0 <= j <= k ==> r[1 + j] == StepStarted(descs[j]))
        && (forall j :: 0 <= j < k ==> r[k + 2 + j] == StepOk(descs[j], t.states[j].logLines))
        && r[2 * k + 2] == StepFailed(descs[k], t.states[k].logLines)
        && (|r| == 2 * k + 4 <==> |t.states[k].failStack| > 0)
        && (|r| == 2 * k + 4 ==> r[2 * k + 3] == Stack(t.states[k].failStack))
    ensures FailedAt(t).None? ==> Transcript(name, descs, t.states) == [RunBanner(name)] + Started(descs, |scripts|)
  {
    if FailedAt(t).Some? {
      TranscriptLayout(name, descs, t.states, FailedAt(t).value);
    }
  }

  /** The layout of a transcript whose last step failed, read off the states alone. */
  lemma TranscriptLayout(name: string, descs: seq<string>, states: seq<StepState>, k: nat)
    requires |states| <= |descs| && k == |states| - 1 && states[k].failed
    ensures var r := Transcript(name, descs, states);
      && 2 * k + 3 <= |r| <= 2 * k + 4
      && r[0] == RunBanner(name)
      && (forall j :: 0 <= j <= k ==> r[1 + j] == StepStarted(descs[j]))
      && (forall j :: 0 <= j < k ==> r[k + 2 + j] == StepOk(descs[j], states[j].logLines))
      && r[2 * k + 2] == StepFailed(descs[k], states[k].logLines)
      && (|r| == 2 * k + 4 <==> |states[k].failStack| > 0)
      && (|r| == 2 * k + 4 ==> r[2 * k + 3] == Stack(states[k].failStack))
  {
    var head := [RunBanner(name)] + Started(descs, |states|);
    var oks := Oks(descs, states, k);
    var last := [StepFailed(descs[k], states[k].logLines)]
      + (if |states[k].failStack| > 0 then [Stack(states[k].failStack)] else []);
    assert Transcript(name, descs, states) == head + (oks + last);
    PartsAt(head, oks, last);
  }

  /** Where the three parts of `head + (mid + last)` sit. */
  lemma PartsAt<T>(head: seq<T>, mid: seq<T>, last: seq<T>)
    ensures var r := head + (mid + last);
      && |r| == |head| + |mid| + |last|
      && (forall j :: 0 <= j < |head| ==> r[j] == head[j])
      && (forall j :: 0 <= j < |mid| ==> r[|head| + j] == mid[j])
      && (forall j :: 0 <= j < |last| ==> r[|head| + |mid| + j] == last[j])
  {
  }

  /** stepper_test.go: a `Fatal` in the second step stops the run before the third step runs. */
  lemma StepperStops(stack: string)
    ensures var scripts := [[Log("this is fine")],
                            [Log("step 1 map[foo:bar]"), Equal(Bool(true), Bool(true)), Fatal("Test Fatal")],
                            [Fatal("I should not be running")]];
      var t := RunFrom(scripts, false, []);
      FailedAt(t) == Some(1) && |t.states| == 2
      && t.states[1].logLines == [Line("DEBUG", "step 1 map[foo:bar]"), Line("FATAL", "Test Fatal")]
  {
  }

  /**
   * A body that panics, with any value, fails its step: the recovery logs
   * a FATAL line naming the value as the step's last line.
   */
  lemma UserPanicFailsStep(script: seq<Action>, cancelled: bool, outer: seq<string>)
    requires ExecScript(World(Fresh, cancelled, outer), script).signal.Panicked?
    ensures var s := RunStep(script, cancelled, outer).step;
      && s.failed && |s.logLines| > 0
      && s.logLines[|s.logLines| - 1] == Line("FATAL", "Test Step Panic: " + ExecScript(World(Fresh, cancelled, outer), script).signal.value)
  {
  }

  lemma {:induction false} LogsContinue(w: World, prefix: seq<Action>, rest: seq<Action>)
    requires forall k :: 0 <= k < |prefix| ==> prefix[k].Log?
    ensures ExecScript(w, prefix + rest) == ExecScript(ExecScript(w, prefix).world, rest)
    ensures ExecScript(w, prefix).signal.Continue?
    decreases |prefix|
  {
    if prefix == [] {
      assert prefix + rest == rest;
    } else {
      assert (prefix + rest)[0] == prefix[0];
      assert (prefix + rest)[1..] == prefix[1..] + rest;
      LogsContinue(Perform(w, prefix[0]).world, prefix[1..], rest);
    }
  }

  /**
   * The recovery as written: the unwinding of `FailNow` is recognised by
   * comparing the recovered value with the string "EARLY EXIT", so a body
   * that itself panics with that string is taken for an early exit.
   */
  function RecoverAsWritten(e: Effect): (w: World)
    ensures e.signal.Panicked? && e.signal.value == EarlyTestExit ==> w == e.world
  {
    if e.signal.Panicked? && e.signal.value == EarlyTestExit then e.world else Recover(e)
  }

  /** The as-written recovery lets a step that panics with "EARLY EXIT" pass. */
  lemma PanicSentinelCollision(stack: string)
    ensures !RecoverAsWritten(ExecScript(World(Fresh, false, []), [Panic(EarlyTestExit, stack)])).step.failed
    ensures Recover(ExecScript(World(Fresh, false, []), [Panic(EarlyTestExit, stack)])).step.failed
  {
  }
}
