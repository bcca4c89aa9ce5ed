# flowtest in Dafny

A model of the scenario-test core of flowtest, a Go library for writing
integration tests as ordered steps. Each step gets its own asserter, and a
run stops at the first step that fails. The model covers six parts:

- **The stepper** (stepper.go). A `Stepper` keeps its steps in
  registration order. `RunSteps` gives each step a fresh `asserter` and
  runs its body. A `FailNow` or a panic is recovered. The run stops after
  the first failed step, prints each earlier step as OK and then the failed
  one, and calls `t.FailNow()`.
  - The meaning of a run is given by pure functions in `StepperSpec`.
  - The `Stepper`, `Step`, `Asserter`, `RunContext` and `OuterTB` classes
    of module `Stepper` update their fields in place. Their methods are
    proved against those functions.
- **The assertion façade** (assert.go). `Assertions` models a named
  assertion. Each operation is modelled by the messages it passes to the
  injected `fatal` callback, in call order.
- **The comparison primitives** (be/assert.go and the copies at the end of
  assert.go). `Be` models them over any strict total order.
- **The test runner** (runner/runner.go and runner/tbimpl.go).
  - `TBImplementation` models the runner's test handle: a sticky `failed`
    flag, `Fail`/`FailNow`, and `Run`, which runs a child body and folds the
    child's failure into the parent.
  - `Runner` models tag splitting, filter matching, the sort by order, and
    the run that collects the labels of failed tests.
- **The HTTP client helpers** (runner/testclient/testclient.go).
  `TestClient` models `AssertHTTPError` and the `Paged` walk over a list
  endpoint.
- **The JSON path assertions** (jsontest/jsontest.go). `JsonTest` models
  `AssertEqual`, `AssertNotSet` and `AssertEqualSet` over a document read
  by path.

Two modules hold the abstractions the others share:

- `Values` models Go values in an `interface{}`, Go errors and their
  wrapping, gRPC status codes, and the library calls made on them:
  `reflect.DeepEqual`, `proto.Equal`, `errors.As`/`errors.Is`,
  `status.FromError` and `http.StatusText`. `status.FromError` is the
  one of grpc-go 1.55 and later, which finds a status error through `%w`
  wrapping; grpc.go:18 calls `grpc.NewClient`, which needs such a release.
- `Text` models string helpers: `strings.Contains`, `strings.Split`, and
  decimal formatting.

How the Go mechanisms are modelled:

- **panic/recover.** A `panic` becomes an explicit `Signal` returned by each
  call: `Continue`, `EarlyExit` (the unwinding of `FailNow`) or
  `Panicked(value, stack)`.
- **`runtime.Goexit`.** It becomes a returned `exit` flag.
- **Step bodies and test bodies.** Go closures become scripts of the calls
  they make on their handle (`Action`, `Call`).
- **The HTTP endpoint.** It becomes a scripted list of responses.
- **Map iteration.** It becomes a choice of any key not yet visited, and
  the chosen order is returned as a ghost result.
- **Formatting.** Messages are built as strings wherever the format is
  simple. `jsontest` complaints are recorded as a `Failure` datatype that
  carries the formatted values.

Where the written description of the system and the code differ, the model
follows the code:

- The stepper here has no setup, background, pre-step or post-step hooks,
  and no variations. It runs only the registered steps.
- `NotEmpty` does not stop at the first zero value. It reports every zero
  value and stops only at the first nil interface.
- The asserter's `Error`/`Errorf` does not use a separate error channel. It
  writes a DEBUG log line whose text is "ERROR" directly followed by the
  message, and marks the step failed.
- The asserter's `Logf` does not write to the step log. It goes to the
  outer test handle.

## Model

| member | source | states |
|---|---|---|
| Be.Failf | be/assert.go:11-14 | the outcome is a failure carrying exactly the formatted message |
| Be.Equal | be/assert.go:16-21 | passes iff `want == got`; on failure the message is "got X, want Y" |
| Be.GreaterThan | be/assert.go:23-28 | passes iff `b < a` in the order; otherwise "A is not greater than B" |
| Be.LessThan | be/assert.go:30-35 | passes iff `a < b`; otherwise "A is not less than B" |
| Be.GreaterThanOrEqual | be/assert.go:37-42 | passes iff `b < a` or `a == b`; otherwise "A is not greater than or equal to B" |
| Be.LessThanOrEqual | be/assert.go:44-49 | passes iff `a < b` or `a == b`; otherwise "A is not less than or equal to B" |
| Be.IntComparisons | assert.go:212-245 | on integers the five comparisons pass exactly when Go's `==`, `>`, `<`, `>=`, `<=` hold (the assert.go copies are the same functions) |
| Be.LessThanComplementsGreaterOrEqual | be/assert.go:23-49 | over a strict total order, exactly one of `LessThan(a,b)` and `GreaterThanOrEqual(a,b)` passes, and exactly one of `GreaterThan(a,b)` and `LessThanOrEqual(a,b)` |
| Be.Trichotomy | be/assert.go:16-35 | over a strict total order exactly one of `LessThan`, `Equal`, `GreaterThan` passes |
| Be.Converse | be/assert.go:23-49 | `GreaterThan(a,b)` passes iff `LessThan(b,a)` does; likewise for the non-strict pair |
| Be.LexLessIsStrictTotalOrder | be/that_test.go:15 | Go's string `<` is a strict total order, so the comparisons apply to strings |
| Be.ThatTestCases | be/that_test.go:7-36 | the happy cases pass; the sad cases fail, `Equal(1, 2)` with "got 2, want 1" |
| Assertions.Prefixed | assert.go:79-85 | the message is unchanged for an unnamed assertion; otherwise it is `name: ` followed by the message, and the message is its suffix |
| Assertions.Fail | assert.go:79-85 | `fail` calls `fatal` exactly once, with the prefixed message |
| Assertions.Sub | assert.go:71-77 | a child reports exactly as a fresh assertion with the child's name; the parent's name plays no part |
| Assertions.SubForgetsParent | assert.go:71-77 | two children with the same name report the same messages, whatever their parents |
| Assertions.T | assert.go:64-69 | no report iff the failure is nil; otherwise one report of the failure's own text |
| Assertions.Fatal | assert.go:87-95 | one report of the rendered message, name-prefixed |
| Assertions.NoError | assert.go:97-107 | no report iff the error is nil; an error in which `status.FromError` finds a status, wrapped or not, reports "unexpected error" with that status's payload; any other error reports "got error … (type), want no error" |
| Assertions.NoErrorWrappedStatus | assert.go:97-102 | a status error under a `%w` wrap is reported as a status, whose message is the outer error's text |
| Assertions.EqualFailure | assert.go:115-140 | the three-tier dispatch: nil interface on either side compares by identity; a message `want` (a typed nil message pointer included) compares with `proto.Equal`; anything else with `reflect.DeepEqual` |
| Assertions.Equal | assert.go:115-140 | at most one report, made exactly when the dispatch says the values differ |
| Assertions.EqualReflexive | assert.go:115-140 | any value equals itself |
| Assertions.EqualNil | assert_test.go:21-54 | `Equal(nil, nil)` passes; `Equal(nil, v)` and `Equal(v, nil)` fail for non-nil `v` |
| Assertions.EqualNilPointerIsNotNil | assert.go:117-121 | a typed nil pointer is not the nil interface, so comparing it with nil fails |
| Assertions.EqualProtoAgainstNonProto | assert.go:124-129 | a message `want` against a non-message `got` always fails with "want was a proto, got was (type)" |
| Assertions.EqualNilMessage | assert.go:124-133 | a typed nil message pointer is still a message: against a valid message of its type it fails with "got <nil>, want …", and it equals itself |
| Assertions.EqualIgnoresProtoCache | assert.go:124-133 | two messages differing only in their internal size cache are equal |
| Assertions.FirstWithNilness | assert.go:169-187 | the index of the first value with the given nil-ness, with every earlier value of the other nil-ness |
| Assertions.FirstWithNilnessIgnoresRest | assert.go:43-46 | values after the first violation do not change which one is reported |
| Assertions.NotNil | assert.go:169-177 | no report iff no value is nil; otherwise a single "value was nil", for the first nil value |
| Assertions.Nil | assert.go:179-187 | no report iff every value is nil; otherwise a single "value was not nil" |
| Assertions.NotEmptyReports | assert.go:142-156 | no report iff no value is a zero value; never more reports than values |
| Assertions.NotEmpty | assert.go:142-156 | the loop reports one "zero value" per zero value and stops at the first nil interface, as `NotEmptyReports` specifies |
| Assertions.CodeError | assert.go:189-203 | no report iff `status.FromError` finds the expected code in the error, through wrapping too; otherwise exactly one report, with `CodeErrorFailure`'s message |
| Assertions.MustMessage | assert.go:109-113 | the reports are `NoError(err)`'s followed by "value was nil" exactly when `m` is nil; so none iff the error is nil and `m` is not nil, and at most two |
| Values.AsAPIError | runner/testclient/testclient.go:183-184 | finds an API error in the error's wrap chain when there is one; `None` means the chain holds no API error |
| Values.IsEOF | runner/testclient/testclient.go:216 | true iff `io.EOF` is in the error's wrap chain |
| Values.ShowPointerDepth | assert.go:119 | as `%v` prints it, a pointer to a struct shows as `&` and the struct at the top level, but as an address once nested inside a struct |
| Values.IsNilCases | assert.go:158-167 | the nil interface and typed nil pointers are nil; strings, numbers, slices (empty or not), structs and pointers to structs are not, as assert_test.go lists; a nil slice is a zero value yet not nil; every nil value renders as `<nil>` |
| Values.FirstStatus | stepper.go:252 | the first status error in the wrap chain, with no status error before it; `None` iff the chain holds none |
| Values.FromError | assert.go:100-101 | `status.FromError` finds a status iff the chain holds one; its code is the first status error's; a bare status error is returned as is, a wrapped one carries the whole error's text |
| Values.StatusCode | stepper.go:252 | the code `status.FromError` reports: present iff the chain holds a status error, and then the first one's code |
| Values.StatusCodeThroughWraps | assert.go:195-201 | a status error's code is found through any number of `%w` wraps |
| Values.WrapAll | assert.go:195-201 | wrapping `n` times puts the wrapped error's chain after `n` wrappers |
| Values.CodeErrorFailure | stepper.go:246-260 | the failure message of `CodeError` is absent iff `status.FromError` finds the expected code in the error |
| Values.CodeErrorCases | assert.go:189-203 | each failing case gives its own message: nil error, no status error anywhere in the chain, the first status carrying another code; the first status carrying the code passes |
| Values.WrappedStatusPasses | assert.go:195-201 | a `%w`-wrapped status error carrying the code passes `CodeError`, as a bare one does |
| Values.ProtoEqualIgnoresCache | assert.go:124-136 | `proto.Equal` ignores the size cache that `reflect.DeepEqual` sees, which is why messages are dispatched first |
| StepperSpec.FailNowEffect | stepper.go:295-303 | `FailNow` marks the step failed, cancels the run, unwinds the body, and leaves the log and outer log alone |
| StepperSpec.FatalEffect | stepper.go:283-293 | `Fatal`/`Fatalf` add exactly one FATAL line, then act as `FailNow` |
| StepperSpec.AsserterEqualFailure | stepper.go:220-244 | the asserter's dispatch: nil by identity, then `got` a message (a typed nil message pointer included) by `proto.Equal`, else `reflect.DeepEqual` |
| StepperSpec.AsserterEqualNilMessage | stepper.go:229-236 | a typed nil message pointer is still a message: a valid message `got` against a nil message `want` of its type fails with "got …, want <nil>", and a nil message `got` equals itself |
| StepperSpec.Perform | stepper.go:213-317 | one call never clears `failed` or cancellation, only appends to the log, and cancels only a failed step; it unwinds by `FailNow` only after marking the step failed; it panics iff the call is a panic |
| StepperSpec.ExecScript | stepper.go:152 | a body keeps the same monotonic properties as each call it makes |
| StepperSpec.ExecFirst | stepper.go:152 | a body stops at the first call that does not return |
| StepperSpec.FirstPanicFrame | stepper.go:138-146 | the first line from a position on that mentions panic.go, with no earlier one after that position |
| StepperSpec.FilteredStackShape | stepper.go:135-148 | the kept stack starts with the first line and is no longer than the stack; without a later panic.go line it is that line alone; otherwise it is the first line then everything after the first panic.go line |
| StepperSpec.Recover | stepper.go:126-150 | a recovered panic other than `FailNow`'s fails the step; otherwise the step is left as the body left it; cancellation and outer log are untouched |
| StepperSpec.RunStep | stepper.go:118-153 | a step that cancels the run has failed; the recovery is the intended one of "## Findings" |
| StepperSpec.ExecIndependent | stepper.go:117-153 | what a body does to its asserter does not depend on cancellation or the outer log |
| StepperSpec.RunStepIndependent | stepper.go:117-153 | a step's state is the same wherever it runs in the run |
| StepperSpec.RunFrom | stepper.go:117-167 | the run produces at most one state per step |
| StepperSpec.RunFirst | stepper.go:117-167 | a run with steps always runs the first one |
| StepperSpec.Run | stepper.go:108-167 | a run from an uncancelled context produces at most one state per step |
| StepperSpec.FailedAt | stepper.go:154-166 | a reported failing index is one of the steps that ran |
| StepperSpec.RunFromShape | stepper.go:117-167 | each step that ran has its own state, all but the last passed, the run stops early only at a failure, and it runs a step whenever there is one |
| StepperSpec.FailFast | stepper.go:117-167 | the run stops at step `k` exactly when `k` is the first failing step, and then exactly `k + 1` steps ran; with no failing step every step ran |
| StepperSpec.RunIgnoresLaterSteps | stepper.go:154-166 | steps registered after the failing one never affect the run |
| StepperSpec.CancellationEndsRun | stepper.go:110-111 | a cancelled run ended at a failed step |
| StepperSpec.Started | stepper.go:124 | one "STEP" announcement per step, in order |
| StepperSpec.Oks | stepper.go:155-158 | one OK report per earlier step, in order, with its own log lines |
| StepperSpec.FailureReportOrder | stepper.go:154-166 | after a failure at step `k`: the banner comes first, steps 0..k are announced, then 0..k-1 are reported OK in order with their logs, then step `k` as failed, then its stack exactly when it kept one, and nothing else; without a failure the banner and the announcements only |
| StepperSpec.TranscriptLayout | stepper.go:154-166 | the same layout, banner and stack included, read off the states of the steps that ran |
| StepperSpec.StepperStops | stepper_test.go:5-24 | a `Fatal` in the second step stops the run before the third step; the second step's log is its DEBUG line and then its FATAL line |
| StepperSpec.UserPanicFailsStep | stepper.go:126-134 | with the intended recovery, any body whose run ends in a panic, with any value, fails its step, and the step's last log line is the FATAL line naming the value |
| StepperSpec.LogsContinue | stepper.go:273-276 | `Log` calls never unwind a body, so what follows them runs |
| StepperSpec.RecoverAsWritten | stepper.go:127-130 | the recovery as written passes over any panic whose value is the string "EARLY EXIT" |
| StepperSpec.PanicSentinelCollision | stepper.go:127-130 | a body that itself panics with "EARLY EXIT" passes under the recovery as written, and fails under the intended one |
| Stepper.RunContext.Cancel | stepper.go:110-111 | cancelling sets the flag |
| Stepper.OuterTB.Log | stepper.go:280 | appends exactly the message to the outer log |
| Stepper.Asserter.constructor | stepper.go:118-121 | a fresh asserter has an empty log, is not failed, and has no stack |
| Stepper.Asserter.AppendLog | stepper.go:262-267 | appends one line without fields and changes nothing else |
| Stepper.Asserter.Log | stepper.go:273-276 | appends a DEBUG line |
| Stepper.Asserter.Logf | stepper.go:278-281 | writes to the outer handle, not to the step log |
| Stepper.Asserter.FailNow | stepper.go:295-303 | marks the step failed, cancels the run and unwinds, with the log unchanged |
| Stepper.Asserter.Fatal | stepper.go:283-293 | one FATAL line, then failed, cancelled and unwinding |
| Stepper.Asserter.Error | stepper.go:307-317 | one DEBUG line "ERROR" followed by the message; failed; the body goes on |
| Stepper.Asserter.NoError | stepper.go:213-218 | the effect of `StepperSpec.Perform`; the body goes on iff there is no error |
| Stepper.Asserter.Equal | stepper.go:220-244 | the effect of `StepperSpec.Perform`; with a nil side the body goes on iff both sides are the same |
| Stepper.Asserter.CodeError | stepper.go:246-260 | the effect of `StepperSpec.Perform`; the body goes on iff `status.FromError` finds the code in the error, wrapped or not |
| Stepper.Asserter.Perform | stepper.go:192-198 | the in-place effect of any call is that of `StepperSpec.Perform` |
| Stepper.Asserter.RunBody | stepper.go:152 | running a body in place has the effect of `StepperSpec.ExecScript` |
| Stepper.Asserter.RecoverFrom | stepper.go:126-150 | the deferred recovery in place is `StepperSpec.Recover`, the intended recovery of "## Findings" |
| Stepper.FilterStack | stepper.go:135-148 | the stack-filtering loop computes `StepperSpec.FilteredStack` |
| Stepper.DescsOf | stepper.go:155-160 | the descriptions of the steps, in order |
| Stepper.ScriptsOf | stepper.go:117 | the bodies of the steps, in order |
| Stepper.Stepper.constructor | stepper.go:70-74 | a new stepper has its name and no steps |
| Stepper.Stepper.StepC | stepper.go:98-103 | one new step at the end; earlier steps and their order are unchanged |
| Stepper.Stepper.Step | stepper.go:88-96 | as `StepC` |
| Stepper.Stepper.Log | stepper.go:23-33 | with a current asserter it appends the line with its fields and changes nothing else; without one it panics with the text "Log called on stepper without a current step" and changes nothing |
| Stepper.Stepper.RunOne | stepper.go:118-153 | the fresh asserter becomes current and the step's own, and ends in the state `StepperSpec.RunStep` gives |
| Stepper.Stepper.RunNext | stepper.go:117-153 | one more step of the run: its fresh asserter becomes current; the run's trace ends here on a failure, and otherwise the passed prefix grows |
| Stepper.Stepper.EndRun | stepper.go:111 | the deferred `cancel()` leaves every asserter as it is |
| Stepper.Stepper.FailureLines | stepper.go:155-164 | the lines after the announcements are `StepperSpec.FailureReport` of the states, read from the asserters |
| Stepper.Stepper.OkReports | stepper.go:155-158 | the OK lines are `StepperSpec.Oks` |
| Stepper.Stepper.RunSteps | stepper.go:105-168 | the report is the transcript of `StepperSpec.Run` and the outcome is `FailNow` at its failing step or pass; each step that ran keeps the asserter whose state the run gives |
| Stepper.AdvanceRun | stepper.go:154-166 | one more step: on failure the run ends there, otherwise it goes on from the next step |
| Stepper.PassedFromRun | stepper.go:117-167 | the steps that passed so far are the start of the run |
| Stepper.PassedFromExtend | stepper.go:117-167 | a passing step extends the passed prefix |
| Stepper.PassedRun | stepper.go:117-167 | when every step passed, the trace is their states and the report only announces them |
| Stepper.PassedFromPassed | stepper.go:154 | every step of the passed prefix passed |
| Stepper.FailedRun | stepper.go:154-166 | a run whose last state failed reports that step's failure |
| TBImplementation.Exec | runner/tbimpl.go:58-82 | a handle once failed stays failed, and a body is only cut short by a failure |
| TBImplementation.ExecSticky | runner/tbimpl.go:58-65 | the final flag is the starting flag or'ed with the body's own failure |
| TBImplementation.FailsIffHasFailure | runner/tbimpl.go:58-82 | a body fails exactly when it makes a `Fail` or `FailNow` call at some depth |
| TBImplementation.ChildExitDoesNotStopParent | runner/tbimpl.go:67-82 | `FailNow` inside `Run` ends only the child; the parent fails and goes on |
| TBImplementation.TBImpl.constructor | runner/tbimpl.go:69 | a zero handle is not failed |
| TBImplementation.TBImpl.Fail | runner/tbimpl.go:58-60 | sets `failed` |
| TBImplementation.TBImpl.FailNow | runner/tbimpl.go:62-65 | sets `failed` and ends the calling body |
| TBImplementation.TBImpl.Run | runner/tbimpl.go:67-82 | returns true iff the child body never fails, and the parent becomes failed iff it was failed or the child failed |
| TBImplementation.TBImpl.Execute | runner/tbimpl.go:54-82 | running a body in place has the effect of `Exec` |
| Runner.Key | runner/runner.go:70 | the key has no `=` and is followed by `=` in the tag |
| Runner.KeyValSplit | runner/runner.go:70-71 | key, `=` and value put back together give the tag |
| Runner.FlatTags | runner/runner.go:78-80 | the plain tags are tags without `=` |
| Runner.CategoryTagsGroupByKey | runner/runner.go:66-83 | each key of the category map holds exactly the values given for it, in order, and a key is present iff it has a value |
| Runner.SplitTagsPartition | runner/runner.go:66-83 | every tag lands in exactly one output, and every plain tag is kept |
| Runner.SplitTags | runner/runner.go:66-83 | the one-pass loop computes the plain tags and the category map |
| Runner.TagsMatch | runner/runner.go:41-50 | true iff every filter tag is among the test's plain tags |
| Runner.CategoriesMatch | runner/runner.go:25-39 | true iff for every filter key some filter value is among the test's values for that key, whatever the map iteration order |
| Runner.EmptyCategoryNeverMatches | runner/runner.go:26-35 | a filter key with no values never matches |
| Runner.Label | runner/runner.go:132 | the label starts with the order printed as a number |
| Runner.Selected | runner/runner.go:110-122 | every selected test is in the set and matches both filters, and every test of the set that matches both is selected |
| Runner.SelectedIsFilter | runner/runner.go:110-122 | the selection is the filter of the set by both matchers |
| Runner.SelectedPositions | runner/runner.go:110-122 | the selected tests sit at strictly increasing positions of the set, and every position whose test matches both filters is among them: exactly the matching tests, in order |
| Runner.FailureLabels | runner/runner.go:141-144 | at most one label per test run |
| Runner.FailureLabelsEmpty | runner/runner.go:148-156 | no label is recorded iff no test of the run fails |
| Runner.SwapPermutes | runner/runner.go:62-64 | a swap keeps the same tests |
| Runner.TestSet.constructor | runner/runner.go:52 | an empty set |
| Runner.TestSet.Len | runner/runner.go:54-56 | the number of tests |
| Runner.TestSet.Less | runner/runner.go:58-60 | orders by the order key alone |
| Runner.TestSet.Swap | runner/runner.go:62-64 | exchanges two entries and keeps the same tests |
| Runner.TestSet.Register | runner/runner.go:86-96 | appends one test with its tags split into plain tags and categories |
| Runner.TestSet.Sort | runner/runner.go:108 | afterwards the tests are in ascending order and are the same tests |
| Runner.TestSet.Select | runner/runner.go:110-122 | the loop computes `Selected`, which `SelectedPositions` shows is exactly the matching tests, in order |
| Runner.TestSet.Run | runner/runner.go:107-157 | sorts, filters, runs; the failures are the labels of the failing selected tests in run order; an error is returned iff some selected test fails, and its message counts the failures |
| Runner.RunTests | runner/runner.go:129-146 | each test runs on a fresh handle, and exactly the failing ones leave their label |
| TestClient.AssertHTTPError | runner/testclient/testclient.go:179-192 | passes iff the error is non-nil and its chain holds an API error with the expected status |
| TestClient.AssertHTTPErrorCases | runner/testclient/testclient.go:179-192 | nil, a wrong status, and a non-API error each fail with their own message; an API error with the status passes, wrapped or not |
| TestClient.FirstRefused | runner/testclient/testclient.go:214-221 | the first item the callback refuses, with every earlier item accepted |
| TestClient.Paging | runner/testclient/testclient.go:202-230 | the walk makes at most one call per response, and its first call carries the starting token |
| TestClient.PagingDeliversInOrder | runner/testclient/testclient.go:208-221 | what reaches the callback is a prefix of all items, page after page |
| TestClient.PagingFollowsTokens | runner/testclient/testclient.go:223-228 | each call after the first carries the token of the previous page, and a page without a token is never followed |
| TestClient.PagingErrorsAsIs | runner/testclient/testclient.go:209-219 | a returned error is a call's error or the callback's error for the last item handed over, and never one wrapping `io.EOF` |
| TestClient.EOFStopsPaging | runner/testclient/testclient.go:216-218 | a callback error wrapping `io.EOF` ends the walk with nil at once |
| TestClient.PageRequest.SetPageToken | runner/testclient/testclient.go:194-196 | sets the token |
| TestClient.Deliver | runner/testclient/testclient.go:214-221 | the loop stops at exactly `FirstRefused` |
| TestClient.Visit | runner/testclient/testclient.go:209-228 | one turn of the loop: records one call with the request's token; stops exactly on a final response, leaving the request's token as it was, and otherwise sets the request's token to the page's token and the walk goes on from there |
| TestClient.Paged | runner/testclient/testclient.go:202-230 | the returned error, the items delivered and the tokens requested are exactly those of `Paging`; afterwards the request carries the token of the last call made |
| JsonTest.Get | jsontest/jsontest.go:98-104 | a value is found iff the path exists |
| JsonTest.LenFailures | jsontest/jsontest.go:171-186 | no failure iff the value is an array or object of exactly that length |
| JsonTest.AtPath | jsontest/jsontest.go:164-168 | a missing path gives exactly "not found"; otherwise the check's own failures |
| JsonTest.NotSetIffPresent | jsontest/jsontest.go:128-134 | `NotSet` complains once iff the path exists |
| JsonTest.OneofMissingPath | jsontest/jsontest.go:135-161 | on a missing path the oneof check goes on and records not-found, invalid-for-oneof and no-key |
| JsonTest.OneofPassesIff | jsontest/jsontest.go:135-161 | the oneof check passes iff the path holds an object whose only key besides "!type" is the expected one |
| JsonTest.MissingPathOneFailure | jsontest/jsontest.go:164-168 | every other kind of check records only "not found" on a missing path |
| JsonTest.LenEqualPassesIff | jsontest/jsontest.go:171-186 | `LenEqual(n)` passes iff the path holds an array of `n` items or an object of `n` keys |
| JsonTest.PathKey | jsontest/jsontest.go:206-209 | the key alone at the root, else `path.key` |
| JsonTest.PathKeySplits | jsontest/jsontest.go:206-209 | the key can be read off the end of its path and the base path off the front |
| JsonTest.SetFailuresSnoc | jsontest/jsontest.go:205-212 | checking one more key appends that key's failures |
| JsonTest.ErrorLog.Errorf | jsontest/jsontest.go:15 | appends exactly one failure |
| JsonTest.CollectKeys | jsontest/jsontest.go:144-153 | the collected keys are exactly the object's keys other than "!type", each once |
| JsonTest.AssertOneof | jsontest/jsontest.go:135-161 | appends exactly the oneof failures |
| JsonTest.AssertEqual | jsontest/jsontest.go:126-194 | appends exactly the failures of the check the expected value asks for |
| JsonTest.AssertNotSet | jsontest/jsontest.go:196-201 | appends exactly what `AssertEqual` with `NotSet` would |
| JsonTest.AssertEqualSet | jsontest/jsontest.go:203-213 | visits every expected key exactly once, in some order, and appends the failures of each key's check under its path, in that order |
| JsonTest.ToJSONArray | jsontest/jsontest.go:114-120 | a fresh array with the same elements in the same order |

## Left out

- Console output is not modelled: colours, `dumpLogLines`, the printed
  stack, the runner's progress lines, and `formatAPIResponse` with
  `TBImpl.LevelLog`. The stepper's printed events are kept as a list of
  `Event` values.
- Log-line fields are kept as a map of already-rendered strings. Their
  JSON rendering is left out.
- `fmt` verbs are not modelled. Messages are passed already rendered
  (`Action` and `Call` carry strings). The `%v`/`%T` renderings of values
  are simplified definitions (`Show`, `TypeOf`, `ErrorType`): strings,
  numbers, booleans, nil, slices and structs render as `%v` does. A
  pointer renders as `&` and its target only at the top level and only
  when the target is a struct or a slice, as `fmt` does; otherwise it
  renders as `0x...` in place of its address.
- Values.Show: a message renders as its field values in braces, where
  `%v` prints the message's text-format `String()`, which names its
  fields (`name:"x"`); the exact text of `prototext` is not part of this
  model.
- `StepperSpec.StepperStops`: the third step of the test calls `Fatal` on
  the outer `testing.T`, not on the asserter. It is modelled as an asserter
  `Fatal`, which makes no difference because that step never runs.
- Assertions.T: `fail` takes the failure's text as a format string and
  formats it a second time, so a `%` in the text (or in the assertion's
  name) is rendered by `fmt`'s rules, for example "100%" becomes
  "100%!(NOVERB)". The model passes the text through unchanged.
- Assertions.Fatal: the same second formatting pass of the rendered
  message is not modelled.
- Assertions.StatusPayload stands in for `prototext.Format`. Its
  multi-line, deliberately unstable output is not modelled; the model
  keeps only that the payload depends on the status's code and message.
- Be.GreaterThanOrEqual: ordered types are abstracted to a strict total
  order. Floating-point NaN, for which Go's `>=`, `<=` and `==` are all
  false, is not modelled.
- Be.LessThanOrEqual: the same; NaN is not modelled.
- StepperSpec.RunStep uses the intended recovery of "## Findings". A body
  that itself panics with "EARLY EXIT" fails its step here, while the
  source lets it pass and goes on to the next step
  (`StepperSpec.RecoverAsWritten` models that behaviour).
- Stepper.Asserter.RecoverFrom: the same; it performs the intended
  recovery, not the as-written one.
- Stepper.Stepper.RunOne: the same, through `RecoverFrom`.
- Stepper.Stepper.RunSteps: the same, through `RunOne`; its transcript is
  that of a run with the intended recovery. It also does not state which
  asserter is current after the run (the last step's, as `RunNext`
  states for each step) nor that steps after the failing one keep the
  asserters they had.
- Panic values are strings here. A panic with a non-string value is not
  modelled.
- The stack text of a panic is a parameter of the `Panic` action, because
  `debug.Stack()` is runtime state.
- `context.Context` is modelled only as its cancellation flag. Deadlines
  and values are left out.
- `TBImpl.Context` is left out: its field is never set in these files.
- `TBImpl.Helper` and `Asserter.Helper` are left out. They only mark call
  sites.
- The runner's `TBImpl.Run` runs the child in a goroutine and waits for
  it. The model runs the child to completion sequentially. Concurrency
  beyond that wait is not part of this code.
- Runner.TestSet.Run: the runner runs each test's steps by a stepper
  generic over `*TBImpl`, whose source is not part of this model. A test's
  setup and steps are modelled as the calls they make on the test's
  `TBImpl`. The model does not capture that a `FailNow` reached from the
  stepper's own goroutine could end the runner loop.
- The `float64` order of a registered test is modelled as an integer. NaN and
  fractional orders are left out, and `Label` prints the order with six
  zero decimals.
- Runner.TestSet.Sort is proved sorted and a permutation, which is what
  `sort.Sort` promises. The order among tests with equal keys is
  unspecified in Go and is not modelled either way.
- The package-level `Register` and `DefaultTestSet` are left out. They are
  a global `TestSet` with the same `Register`.
- `NewAPI`, `API.Request`, `BearerToken.Authenticate` and the
  `RequestLog` logger are left out. They are HTTP I/O; their only
  decisions are the error values `Paged` and `AssertHTTPError` receive as
  inputs.
- `Values.StatusText` covers the common HTTP statuses only. Any other
  status gives the empty text.
- TestClient.Paged requires that the scripted endpoint ends the walk
  within the script. A server that pages forever is not modelled.
- TestClient.Paged: the callback is a pure function of the item.
- TestClient.Paged: `ctx` is passed through to the call unchanged and is
  left out.
- `NewTestAsserter`, `NewAsserter`, `Print` and `PrintAt` are left out.
  They cover JSON encoding, `protojson` and logging. A document is
  modelled by its path lookup (`gjson.Get`).
- JsonTest.EqualValues is plain equality of decoded JSON values. The
  type conversions done by testify's `EqualValues` are left out, and a
  mismatch is recorded as one failure.
- JsonTest.AssertOneof records the keys of a "multiple keys" failure as a
  set, not as the slice in iteration order that Go prints.
- JsonTest.AssertEqual: JSON numbers are integers. `float64` decoding is
  left out.

## Findings

| source | as written | input that shows it | evidently intended | confidence | as-written member | corrected member |
|---|---|---|---|---|---|---|
| stepper.go:127-130, 302-305 | the recovery recognises the unwinding of `FailNow` by comparing the recovered value with the string "EARLY EXIT" (the commented-out `struct{}{}` would have been unique) | a step body that calls `panic("EARLY EXIT")` | any panic that is not `FailNow`'s own unwinding fails the step | not executed | StepperSpec.RecoverAsWritten, StepperSpec.PanicSentinelCollision | StepperSpec.Recover, StepperSpec.UserPanicFailsStep |
