# smoker, modelled in Dafny

smoker is a command-line smoke tester. It reads a test suite of HTTP test
cases and runs each one through a requester. The requester sends the request
and checks the response's status code and body patterns. Each outcome becomes
a report: the runner appends it to its log and prints a one-line PASS or FAIL
summary. With stop-on-failure on, the runner stops dispatching after a
failure. The final verdict is true when every logged report passed.

This project models four pieces of that program as pure Dafny functions and
proves what they promise:

- `Runner` (runner.dfy) is the execution engine as a sequential fold over the
  suite. It covers the closing flag, the worker, the collector that routes
  each report to stdout or stderr, the pool size, and the verdict. With a
  pool of one slot this fold is exact.
- `RunnerPool` (runner_pool.dfy) covers pools of more than one slot. A
  schedule names how many tests got dispatched and the order their reports
  arrived in. The module proves the facts that hold under every schedule.
- `Report` (report.dfy) is the report record and its one-line rendering.
  Durations are whole centiseconds, so the two-decimal seconds field is
  exact.
- `Requester` (requester.dfy) is the test-case verifier. It validates the
  test case, applies the method and status defaults, and checks the
  response, stopping at the first failed check.
- `CmdOptions` (cmdoptions.dfy) is the option handling after flag parsing:
  defaults, the seconds-to-duration conversion, and validation.

Support modules:

- `Core` (core.dfy) holds the suite, test-case and assertion records, and the
  verifier type.
- `Text` (text.dfy) holds decimal and two-decimal formatting with their
  parsers, and ASCII upper-casing.
- `Fmt` (fmt.dfy) is Go's `fmt.Sprintf` called with a format and no
  operands. The runner prints every report line that way.
- `Wrappers` (wrappers.dfy) holds `Option`.

These are parameters, not models:

- The verifier the runner calls: `TestCase -> Outcome`.
- The clock: a worker's measured duration, in centiseconds, keyed by its
  1-based index.
- The network: a transport maps the outgoing request to a construction
  error, a send error, or a response whose body read may fail.
- Regular-expression matching: a matcher answers `Some(true)`,
  `Some(false)`, or `None` for a pattern that does not compile.

Behaviour of the code that is easy to miss:

- The report log belongs to the runner and is never cleared, and the first
  `Run` on a non-empty suite leaves the closing flag set
  (runner/runner.go:80). A second `Run` on the same runner therefore
  dispatches nothing and returns the verdict of the log the first run left.
- A runner stopped before `Run` dispatches nothing. Its verdict is true when
  its log is empty.
- An empty suite returns before the deferred cancel, so it leaves the
  closing flag as it was.
- The collector passes each rendered line to `fmt.Sprintf` as the format,
  with no operands (runner/runner.go:139-141 and 156-168). Every `%` in a
  name or reason therefore starts a directive:
  - a nil error, rendered as `%!s(<nil>)`, is printed as `%!!(MISSING)s(<nil>)`;
  - a name `100%` is printed as `"100%!"(MISSING)`;
  - `%20b` in a name is printed as `%!b(MISSING)`;
  - `%%` is printed as `%`.
  Lines whose name and reason hold no `%` are printed exactly as rendered.
- `Run` is exact only for a pool of one slot: one worker, or a suite of one
  test. Larger pools are modelled by `RunnerPool.PoolRun`.

## Model

| member | source | states |
|---|---|---|
| Report.Passed | runner/internal/report/report.go:27-29 | a report's verdict is its stored status, read without change (definition; no contract) |
| Report.String | runner/internal/report/report.go:18-24 | the two line formats (definition; no contract). The lemmas below state what the rendering promises |
| Report.ErrText | runner/internal/report/report.go:20 | the `%s` of the error: its message, or `%!s(<nil>)` for a nil error (definition; no contract). `Report.FailLineShowsReason` states where it appears |
| Report.HeadFollowsVerdict | runner/internal/report/report.go:18-24 | a line starts with `PASS: testcase #` exactly when the report passed, and with `FAIL: testcase #` exactly when it failed |
| Report.ParseLineOfString | runner/internal/report/report.go:18-24 | every rendered line reads back to its own verdict, index and duration, whatever the name and reason contain |
| Report.FailLineShowsReason | runner/internal/report/report.go:19-21 | a failed line ends with the closing quote of the name, the error text (Go's nil rendering when there is none), and the duration in parentheses |
| Report.FailStringAroundReason | runner/internal/report/report.go:19-20 | a failed line is the verdict word, index and quoted name, then the error text, then the duration in parentheses |
| Report.PassLineIgnoresReason | runner/internal/report/report.go:23 | a passed line depends only on index, name and duration, never on the error |
| Report.RenderedPassExample | runner/internal/report/report_test.go:20 | the passed report #1 "a" of one second renders as `PASS: testcase #1 "a" (1.00s)` |
| Report.RenderedFailExample | runner/internal/report/report_test.go:21 | the failed report #2 "b" with reason "reason" of two seconds renders as `FAIL: testcase #2 "b" reason (2.00s)` |
| Text.FormatCentisShape | runner/internal/report/report.go:20-23 | the seconds field is decimal digits without a leading zero, a dot, then exactly two digits |
| Text.ParseCentisOfFormatCentis | runner/internal/report/report.go:20-23 | reading the seconds field back gives the duration in centiseconds it was rendered from |
| Text.FormatCentisLacks | runner/internal/report/report.go:20-23 | the seconds field holds only digits and a dot |
| Text.ParseNatOfNatToString | runner/internal/report/report.go:20-23 | the decimal index read back is the index rendered |
| Text.ParseIntOfIntToString | requester/requester.go:79-81 | a status code rendered in decimal, sign included, reads back to itself |
| Text.ToUpper | requester/requester.go:46-47 | upper-casing keeps the length, leaves no lower-case letter, shifts each lower-case letter to its capital, and leaves every other character alone |
| Text.ToUpperIdempotent | requester/requester.go:46-47 | upper-casing twice is upper-casing once |
| Requester.Request | requester/requester.go:37-100 | the outcome passes iff it has no error, and iff every check accepts the exchange for the one request built from the test case; a missing name, then a missing URL, fails with its own message |
| Requester.CheckExchange | requester/requester.go:56-99 | for a well-formed test case, the outcome passes iff it has no error, and iff the exchange is a response with the expected status whose body matches every pattern |
| Requester.MalformedNeverSends | requester/requester.go:37-44 | a test case without name or URL fails, with the same outcome whatever the network would do |
| Requester.OnlyOutgoingIsSent | requester/requester.go:56-73 | the outcome depends on the network only through its answer to the request built from the test case |
| Requester.EffectiveMethod | requester/requester.go:46-50 | the method sent is never empty and has no lower-case letter; a declared method keeps its length |
| Requester.EffectiveMethodIdempotent | requester/requester.go:46-50 | an empty method is sent as GET, any other upper-cased, and normalising twice changes nothing |
| Requester.EffectiveStatus | requester/requester.go:52-54 | an undeclared status (0) is expected as 200 and a declared one is kept, so the expected status is never 0 |
| Requester.UndeclaredStatusMeansOK | requester/requester.go:52-81 | with no status declared, a response passes the status check only when it is 200; with no body patterns besides, it passes exactly when it is 200 |
| Requester.Outgoing | requester/requester.go:46-71 | the request carries the effective method, the test case's URL and headers, and the test case's body exactly when that body is non-empty |
| Requester.TransportErrorSkipsAssertions | requester/requester.go:56-76 | a construction or send error fails with the wrapped message, whatever the matcher says |
| Requester.StatusMismatchReported | requester/requester.go:79-81 | a status other than the expected one fails with `expected status-code: E received: A` |
| Requester.NoPatternsIgnoresBody | requester/requester.go:83-99 | the expected status with no body patterns passes, whether or not the body could be read |
| Requester.FirstUnmatched | requester/requester.go:91-96 | the position found is one whose pattern does not match, and every pattern before it matches |
| Requester.FirstUnmatchedIsFirst | requester/requester.go:91-96 | the position found is the first pattern that does not match, an invalid pattern included |
| Requester.FirstFailingPatternReported | requester/requester.go:91-96 | the first pattern that does not match is the one named in `can not match /p/ in response body` |
| Requester.StatusMismatchExample | requester/requester_test.go:85-93 | a test case with no status declared that receives 500 fails with `expected status-code: 200 received: 500` |
| CmdOptions.AddOptions | cmdoptions/options.go:68-84 | a given flag is kept as given, and the timeout is exactly the given whole seconds; absent flags take the defaults: empty path, one worker, ten seconds, no stop on failure |
| CmdOptions.TimeoutCheckIsSecondsCheck | cmdoptions/options.go:84 | the stored timeout is below one nanosecond iff the given seconds are below one |
| CmdOptions.Validate | cmdoptions/options.go:53-65 | the options pass iff the path is non-empty, workers are at least 1 and the timeout is at least 1; otherwise the first violated check, in that order, gives its message |
| CmdOptions.InstallFlags | cmdoptions/options.go:43-66 | the options come back whether valid or not, and there is no error iff path, workers and seconds are all acceptable |
| CmdOptions.DefaultsExample | cmdoptions/options_test.go:22-27 | the package's flag sets give the expected options or the expected first error |
| CmdOptions.Wrap64 | cmdoptions/options.go:84 | the wrapped value is a signed 64-bit integer congruent to the input modulo 2^64, and equals it when it fits |
| CmdOptions.AddOptionsAsWritten | cmdoptions/options.go:84 | the 64-bit conversion stays in range and agrees with the exact one whenever the product fits |
| CmdOptions.InstallFlagsAsWritten | cmdoptions/options.go:43-66 | validation applied to the wrapped timeout |
| CmdOptions.TimeoutWrapCounterexample | cmdoptions/options.go:84 | 18446744074 seconds is accepted as about 0.29 s, and 9223372037 seconds is rejected as below one; the exact conversion does neither |
| Fmt.Sprintf | runner/runner.go:156-168 | `fmt.Sprintf` with a format and no operands (definition; no contract). The lemmas below state what it prints |
| Fmt.SprintfOfPlain | runner/runner.go:156-168 | with no operands, a format without `%` is printed unchanged |
| Fmt.SprintfOfPlainPrefix | runner/runner.go:156-168 | text free of `%` in front of a format is printed as is, and the rest is formatted on its own |
| Fmt.PercentPercent | runner/runner.go:156-168 | `%%` prints one `%` |
| Fmt.PlainVerbIsMissing | runner/runner.go:156-168 | `%` followed by a verb that starts no flag, index, width or precision prints `%!` + verb + `(MISSING)` |
| Fmt.TrailingPercent | runner/runner.go:156-168 | a `%` at the end of the format prints `%!(NOVERB)` |
| Fmt.NilStringReformatted | runner/runner.go:156-168 | the nil-operand rendering `%!s(<nil>)`, used as a format, prints `%!!(MISSING)s(<nil>)` |
| Fmt.WidthIsDropped | runner/runner.go:156-168 | `%`, up to six digits and a verb print a single missing-operand marker for that verb |
| Fmt.StarWidthIsBad | runner/runner.go:156-168 | a `*` width prints `%!(BADWIDTH)` before the verb's missing-operand marker |
| Fmt.WidthAtGuard | runner/runner.go:156-168 | the number guard trips only above 1000000: the width `10000000` is read whole and the verb prints its missing-operand marker |
| Fmt.WidthPastGuard | runner/runner.go:156-168 | a width whose value so far is above 1000000 before another digit swallows the rest of the format, which prints only `%!(NOVERB)` |
| Fmt.IndexNamesNoOperand | runner/runner.go:156-168 | an argument index such as `[1]` names no operand, and the verb prints `%!` + verb + `(BADINDEX)` |
| Runner.NewRunner | runner/runner.go:17-32 | a new runner has the flag unset, an empty log and empty streams, and the given settings |
| Runner.Stop | runner/runner.go:116-118 | stopping sets the flag and changes nothing else |
| Runner.IsClosing | runner/runner.go:120-126 | the runner reads as closing exactly when stopping it would change nothing |
| Runner.StopIdempotent | runner/runner.go:116-126 | a second stop changes nothing, and a stopped runner reads as closing |
| Runner.ShouldStopOnFailure | runner/runner.go:128-132 | the flag ends set iff it was set or stop-on-failure is on; nothing else changes |
| Runner.Collect | runner/runner.go:134-146 | one report is appended to the log once and prints its line, as `fmt.Sprintf` with no operands makes it, on stdout iff it passed; settings and flag are untouched, and the streams stay in step with the log |
| Runner.CollectAll | runner/runner.go:134-146 | draining appends the reports to the log in arrival order and leaves settings and flag alone |
| Runner.CollectAllLines | runner/runner.go:134-146 | draining prints the passed reports' printed lines on stdout and the failed ones' on stderr, each in arrival order |
| Runner.Printed | runner/runner.go:138-168 | what the collector writes for a report: the rendered line used as a `Sprintf` format with no operands, one write per report (definition; no contract). The three lemmas below state what it promises |
| Runner.PrintedKeepsLead | runner/runner.go:138-168 | printing keeps the verdict word, the index and the opening quote of the name, so a printed line starts with `PASS: testcase #` exactly when the report passed |
| Runner.PrintedPlainLine | runner/runner.go:138-168 | a report whose name and reason hold no `%` is printed exactly as rendered |
| Runner.PrintedNilError | runner/runner.go:138-168 | a failed report with a nil error and a `%`-free name is printed with `%!!(MISSING)s(<nil>)` where the reason goes |
| Runner.OneLinePerReport | runner/runner.go:134-146 | the two streams together hold one write per report, and stdout holds as many as passed |
| Runner.MakeReport | runner/runner.go:96-105 | the report carries the worker's index, the test case's name, and the verifier's verdict and error |
| Runner.Worker | runner/runner.go:93-112 | a worker adds exactly its report to the log; the flag ends set iff it was set or the test failed with stop-on-failure on |
| Runner.Reports | runner/runner.go:65-74 | the reports of a block of tests are, position by position, the reports of those tests with consecutive indices |
| Runner.Dispatch | runner/runner.go:65-74 | a runner that is closing dispatches nothing; the settings never change |
| Runner.DispatchIsCollectingPrefix | runner/runner.go:65-74 | up to the flag, the dispatch loop equals the collector draining, in declaration order, the reports of the prefix it dispatched |
| Runner.Verdict | runner/runner.go:84-90 | the verdict is true iff every report in the log passed |
| Runner.VerdictIgnoresOrder | runner/runner.go:84-90 | two logs with the same reports, in any order, get the same verdict |
| Runner.GetPoolsize | runner/runner.go:148-154 | the pool size is at most the workers and at most the tests, and equals one of them |
| Runner.PoolsizeExamples | runner/runner_test.go:47-57 | one worker and 5 tests give 1, 2 and 5 give 2, and 5 and 3 give 3 |
| Runner.Run | runner/runner.go:46-91 | with a pool of one slot: an empty suite is refused untouched; otherwise the flag ends set, the new reports are those of the dispatched prefix in order, the verdict covers the whole log, and the streams stay in step with the log |
| Runner.EmptySuiteRefused | runner/runner.go:46-49 | an empty suite gives false with `no testcase found in this testsuite`, no report, no line and no flag change |
| Runner.RunAddsDispatched | runner/runner.go:65-74 | with one slot, what Run adds to the log is the reports of the dispatched prefix, in declaration order |
| Runner.RunDispatchesAll | runner/runner.go:65-74 | without stop-on-failure, the new report at position i has index i + 1, the name of test i and its verdict, and the pass count is the verifier's |
| Runner.RunStopsAtFirstFailure | runner/runner.go:65-111 | with stop-on-failure, the new reports are exactly those of the prefix ending at the first failure: all pass but the last, which fails |
| Runner.RunWhenClosing | runner/runner.go:65-90 | a runner already stopped dispatches nothing, keeps its state, and gets the verdict of the log it holds |
| Runner.ClosingIsMonotone | runner/runner.go:107-126 | once set, the flag stays set through a worker, the dispatch loop and Run |
| Runner.OutputFollowsLog | runner/runner.go:134-146 | after a one-slot Run on a new runner, stdout holds the passed reports' printed lines and stderr the failed ones', one write per report |
| Runner.RunnerTestScenarios | runner/runner_test.go:112-132 | the "one case should fail" suite gives false with 2 of 3 passing; with stop on failure it gives false with a single failed report |
| Runner.AllCasesPassScenario | runner/runner_test.go:105-111 | three passing tests give true with three passed reports |
| Runner.AllCasesFailScenario | runner/runner_test.go:119-125 | three failing tests give false with three failed reports |
| RunnerPool.PoolRun | runner/runner.go:46-91 | under any schedule, an empty suite is refused untouched; otherwise the flag ends set and the log grows by one report per dispatched test, keeping its old part |
| RunnerPool.DispatchedIsLeastFeasible | runner/runner.go:65-74 | what the one-slot loop dispatches is a possible count, and the smallest one |
| RunnerPool.NoStopDispatchesAll | runner/runner.go:65-74 | without stop-on-failure and with the flag unset, the only possible count is the whole suite |
| RunnerPool.SequentialIsASchedule | runner/runner.go:60-74 | the one-slot run is the schedule of the least count in declaration order |
| RunnerPool.PoolReportsEachDispatchedOnce | runner/runner.go:65-105 | under any schedule, every new report is a dispatched test's report, no index in 1..k occurs twice, and every dispatched test's report is present |
| RunnerPool.PoolVerdict | runner/runner.go:84-90 | under any schedule, the verdict is true iff the earlier log passed and every dispatched test passed |
| RunnerPool.PoolVerdictMatchesSequential | runner/runner.go:65-90 | whatever the pool size, every schedule reaches the verdict a one-worker runner with the same log and flags reaches |
| RunnerPool.ArrivalOrderIrrelevant | runner/runner.go:84-90 | two arrival orders of the same dispatched tests reach the same verdict |
| RunnerPool.PoolOutputFollowsLog | runner/runner.go:134-146 | under any schedule, the streams stay in step with the log: each report's printed line, on stdout iff it passed, in arrival order |

## Left out

- Goroutines, the wait group, the channels and the context are left out. The runner's behaviour is stated as a fold, plus schedules for larger pools. A schedule abstracts an interleaving to its dispatch count and arrival order; the interleavings themselves are not modelled.
- A `Stop` from a signal handler arriving during a run is left out. The signal wiring lives in `cmd/smoker/smoker.go`, which is not part of this model.
- Wall-clock time is a parameter. The runner's other writes to stdout are not modelled: the startup summary lines (runner/runner.go:51-54), `Waiting for results` (runner/runner.go:62) and the elapsed-time line (runner/runner.go:82). The streams of the model hold only the report writes.
- Durations that are not whole centiseconds are not modelled, because they need floating-point rounding in `%.2f`.
- `log.Fatal` on a failed write is left out: it ends the process.
- The HTTP transport, request construction, header canonicalisation, the `Request-Id` and `User-Agent` headers, and `uuid` are left out. The transport is a parameter and the header-setting sequence is not modelled.
- Regular expressions are an abstract matcher.
- Fmt.Sprintf: follows the directive parsing of Go's `fmt` package for a call with no operands, including its guard on long numbers, which gives up when the value read so far is above 1000000 before another digit. It reads characters, not bytes, so invalid UTF-8 in a name or reason is not modelled.
- Header assertions are declared in the test-case record but never checked by the requester. They stay unchecked here.
- Text.ToUpper: upper-cases ASCII letters only, because Go's Unicode case mapping is not modelled.
- Flag parsing, `-version` and `-help` (which call `os.Exit`) are left out. The command line is the already-parsed values.
- `loader/jsonloader.go`, `cmd/smoker/smoker.go` and `version/` are not part of this model.
- Runner.Run: requires a pool of one slot for a non-empty suite, because only then is the Go loop this fold. Larger pools are `RunnerPool.PoolRun`. With no worker at all, the Go code blocks forever on a pool channel of capacity 0, or panics on a negative capacity.
- Each stream is modelled as the sequence of writes, one per report. A test name or error text containing a newline makes Go print several lines for that report; the model does not split such a write into lines.
- Report.TestReport: the index is a `nat`, where Go's `Index` is an `int`. The runner only ever sets it to a test's 1-based position, `i+1` (runner/runner.go:73), so no negative index is lost.
- RunnerPool.PoolRun: bounds the dispatch count only from below when stop-on-failure is on. How many later tests slip in depends on timing that is not modelled.

## Findings

| source | as written | input that shows it | evidently intended | confidence | as-written member | corrected member |
|---|---|---|---|---|---|---|
| cmdoptions/options.go:84 | `time.Duration(timeout) * time.Second` multiplies in signed 64 bits and wraps silently, so the `< 1` check at line 61 judges the wrapped value | `-timeout 18446744074` is accepted with a timeout of 290448384 ns (about 0.29 s); `-timeout 9223372037` is rejected with `-timeout only accept a number >= 1` | the timeout is the given number of seconds, and any positive number of seconds is accepted (or an overflow is reported) | not executed | CmdOptions.TimeoutWrapCounterexample | CmdOptions.AddOptions |
