/**
 * The execution engine, sequentialised. `Run` walks the suite in declaration
 * order; before each test it checks the closing flag, and if the flag is
 * unset it runs a worker: the verifier is called, a report is built, the
 * collector appends it to the log and writes one line, and a failure sets
 * the flag when stop-on-failure is on. When the walk ends the flag is set
 * and the verdict is read off the whole log.
 *
 * With a pool of one slot the Go code is exactly this fold: the loop takes
 * the slot before reading the flag, and the worker sets the flag before
 * giving the slot back. Larger pools are the subject of RunnerPool.
 *
 * The verifier and the clock are parameters. The clock gives the measured
 * duration, in centiseconds, of the worker with a given 1-based index.
 */
module Runner {
  import opened Wrappers
  import opened Core
  import opened Text
  import opened Fmt
  import opened Report

  type Clock = nat -> nat

  /** The runner's fields that the decision logic reads or writes. */
  datatype State = State(
    workers: int,
    timeout: int,             // nanoseconds; printed only by the startup lines, which are not modelled
    stopOnFailure: bool,
    closing: bool,
    reports: seq<TestReport>, // the collector's log, in arrival order
    stdout: seq<string>,      // one write per report on the success stream
    stderr: seq<string>       // one write per report on the failure stream
  )

  datatype RunResult = RunResult(state: State, ok: bool, err: Option<string>)

  const NoTestcases: string := "no testcase found in this testsuite"

  // ---------------------------------------------------------------------
  // The log and the two output streams

  /** The concatenation of `f` over `xs`, in order. */
  function FlatMap<T>(xs: seq<T>, f: T -> seq<string>): seq<string>
    decreases |xs|
  {
    if xs == [] then [] else f(xs[0]) + FlatMap(xs[1..], f)
  }

  lemma {:induction false} FlatMapOfAppend<T>(a: seq<T>, b: seq<T>, f: T -> seq<string>)
    ensures FlatMap(a + b, f) == FlatMap(a, f) + FlatMap(b, f)
    decreases |a|
  {
    if a == [] {
      assert a + b == b;
    } else {
      assert (a + b)[0] == a[0];
      assert (a + b)[1..] == a[1..] + b;
      FlatMapOfAppend(a[1..], b, f);
    }
  }

  lemma FlatMapAfter<T>(pre: seq<string>, xs: seq<T>, f: T -> seq<string>)
    requires xs != []
    ensures pre + f(xs[0]) + FlatMap(xs[1..], f) == pre + FlatMap(xs, f)
  {
  }

  lemma FlatMapOfSingle<T>(x: T, f: T -> seq<string>)
    ensures FlatMap([x], f) == f(x)
  {
    assert [x][1..] == [];
  }

  /**
   * The line the collector prints for a report. The rendered line is handed
   * to `fmt.Sprintf` as the format, with no operands, so every `%` in it
   * starts a directive. Each stream is a sequence of such writes; the newline
   * the print helpers append is implicit in that, and a newline inside a name
   * or reason is not split out.
   */
  function Printed(rep: TestReport): string {
    Sprintf(String(rep))
  }

  /** Printing keeps the verdict word, the index and the quote that opens the name. */
  lemma PrintedKeepsLead(rep: TestReport)
    ensures var lead := (if Passed(rep) then PassHead else FailHead) + NatToString(rep.index) + " \"";
            StartsWith(String(rep), lead) && StartsWith(Printed(rep), lead)
    ensures StartsWith(Printed(rep), PassHead) <==> Passed(rep)
  {
    var head := if Passed(rep) then PassHead else FailHead;
    var lead := head + NatToString(rep.index) + " \"";
    var rest := Middle(rep)[2..] + "(" + FormatCentis(rep.duration) + "s)";
    assert Middle(rep) == " \"" + Middle(rep)[2..];
    assert String(rep) == lead + rest;
    assert '%' !in lead;
    SprintfOfPlainPrefix(lead, rest);
    assert Printed(rep)[..|PassHead|] == head;
  }

  /** A report whose name and reason hold no `%` is printed exactly as rendered. */
  lemma PrintedPlainLine(rep: TestReport)
    requires '%' !in rep.name
    requires !Passed(rep) ==> rep.err.Some? && '%' !in rep.err.value
    ensures Printed(rep) == String(rep)
  {
    FormatCentisLacks(rep.duration, '%');
    assert '%' !in NatToString(rep.index);
    assert '%' !in Middle(rep);
    assert '%' !in String(rep);
    SprintfOfPlain(String(rep));
  }

  /**
   * A failed report with a nil error and a `%`-free name is printed with
   * fmt's marker for the stray `%!` in front of the rendered `s(<nil>)`.
   */
  lemma PrintedNilError(rep: TestReport)
    requires !Passed(rep) && rep.err.None? && '%' !in rep.name
    ensures Printed(rep) == (FailHead + NatToString(rep.index) + " \"" + rep.name + "\" ")
                            + (MissingArg('!') + (NilString[2..] + (" (" + FormatCentis(rep.duration) + "s)")))
  {
    var a := FailHead + NatToString(rep.index) + " \"" + rep.name + "\" ";
    var b := " (" + FormatCentis(rep.duration) + "s)";
    FailStringAroundReason(rep);
    assert Sprintf(NilString + b) == MissingArg('!') + (NilString[2..] + b) by {
      FormatCentisLacks(rep.duration, '%');
      NilStringReformatted(b);
    }
    assert '%' !in a by {
      assert '%' !in FailHead && '%' !in NatToString(rep.index);
      assert '%' !in " \"" && '%' !in "\" ";
    }
    SprintfOfPlainPrefix(a, NilString + b);
  }

  /** The line a report contributes to the success stream. */
  function PassLine(rep: TestReport): seq<string> {
    if Passed(rep) then [Printed(rep)] else []
  }

  /** The line a report contributes to the failure stream. */
  function FailLine(rep: TestReport): seq<string> {
    if Passed(rep) then [] else [Printed(rep)]
  }

  /** The lines of the passed reports, in log order. */
  function PassLines(reps: seq<TestReport>): seq<string> {
    FlatMap(reps, PassLine)
  }

  /** The lines of the failed reports, in log order. */
  function FailLines(reps: seq<TestReport>): seq<string> {
    FlatMap(reps, FailLine)
  }

  lemma LinesOfAppend(a: seq<TestReport>, b: seq<TestReport>)
    ensures PassLines(a + b) == PassLines(a) + PassLines(b)
    ensures FailLines(a + b) == FailLines(a) + FailLines(b)
  {
    FlatMapOfAppend(a, b, PassLine);
    FlatMapOfAppend(a, b, FailLine);
  }

  /** Every report yields exactly one write, on one of the two streams. */
  lemma {:induction false} OneLinePerReport(reps: seq<TestReport>)
    ensures |PassLines(reps)| + |FailLines(reps)| == |reps|
    ensures |PassLines(reps)| == CountPassed(reps)
    decreases |reps|
  {
    if reps != [] {
      OneLinePerReport(reps[1..]);
    }
  }

  function CountPassed(reps: seq<TestReport>): (n: nat)
    ensures n <= |reps|
    decreases |reps|
  {
    if reps == [] then 0 else (if Passed(reps[0]) then 1 else 0) + CountPassed(reps[1..])
  }

  /** The streams hold exactly the lines of the log, split by verdict. */
  predicate Consistent(s: State) {
    s.stdout == PassLines(s.reports) && s.stderr == FailLines(s.reports)
  }

  // ---------------------------------------------------------------------
  // Construction and the closing flag

  function NewRunner(workers: int, timeout: int, stopOnFailure: bool): (s: State)
    ensures !s.closing && s.reports == []
    ensures Consistent(s)
    ensures s.workers == workers && s.timeout == timeout && s.stopOnFailure == stopOnFailure
  {
    State(workers, timeout, stopOnFailure, false, [], [], [])
  }

  function Stop(s: State): (t: State)
    ensures t.closing
    ensures t.(closing := s.closing) == s
  {
    s.(closing := true)
  }

  /** Whether the runner has been told to stop: exactly when stopping it again would change nothing. */
  function IsClosing(s: State): (b: bool)
    ensures b <==> Stop(s) == s
  {
    s.closing
  }

  /** Stopping twice is stopping once, and a stopped runner stays stopped. */
  lemma StopIdempotent(s: State)
    ensures Stop(Stop(s)) == Stop(s)
    ensures IsClosing(s) ==> Stop(s) == s
    ensures IsClosing(Stop(s))
  {
  }

  function ShouldStopOnFailure(s: State): (t: State)
    ensures t.closing <==> s.closing || s.stopOnFailure
    ensures t.(closing := s.closing) == s
  {
    if s.stopOnFailure then Stop(s) else s
  }

  // ---------------------------------------------------------------------
  // The collector

  /** The configuration fields, which nothing after construction changes. */
  predicate SameSettings(s: State, t: State) {
    t.workers == s.workers && t.timeout == s.timeout && t.stopOnFailure == s.stopOnFailure
  }

  /** One iteration of the collector: append to the log, print on the stream the verdict picks. */
  function Collect(s: State, rep: TestReport): (t: State)
    ensures t.reports == s.reports + [rep]
    ensures Passed(rep) ==> t.stdout == s.stdout + [Printed(rep)] && t.stderr == s.stderr
    ensures !Passed(rep) ==> t.stderr == s.stderr + [Printed(rep)] && t.stdout == s.stdout
    ensures t.stdout == s.stdout + PassLine(rep) && t.stderr == s.stderr + FailLine(rep)
    ensures SameSettings(s, t) && t.closing == s.closing
    ensures Consistent(s) ==> Consistent(t)
  {
    var t := s.(reports := s.reports + [rep]);
    var t := if Passed(rep) then t.(stdout := s.stdout + [Printed(rep)]) else t.(stderr := s.stderr + [Printed(rep)]);
    LinesOfAppend(s.reports, [rep]);
    FlatMapOfSingle(rep, PassLine);
    FlatMapOfSingle(rep, FailLine);
    t
  }

  /** The collector draining a sequence of reports in order. */
  function CollectAll(s: State, reps: seq<TestReport>): (t: State)
    ensures t.reports == s.reports + reps
    ensures SameSettings(s, t) && t.closing == s.closing
    decreases |reps|
  {
    if reps == [] then s
    else
      assert s.reports + [reps[0]] + reps[1..] == s.reports + reps;
      CollectAll(Collect(s, reps[0]), reps[1..])
  }

  /** What draining prints: the passed reports' lines on one stream, the failed ones' on the other, in order. */
  lemma {:induction false} CollectAllLines(s: State, reps: seq<TestReport>)
    ensures CollectAll(s, reps).stdout == s.stdout + PassLines(reps)
    ensures CollectAll(s, reps).stderr == s.stderr + FailLines(reps)
    decreases |reps|
  {
    if reps == [] {
      assert s.stdout + [] == s.stdout && s.stderr + [] == s.stderr;
    } else {
      CollectAllLines(Collect(s, reps[0]), reps[1..]);
      FlatMapAfter(s.stdout, reps, PassLine);
      FlatMapAfter(s.stderr, reps, FailLine);
    }
  }

  // ---------------------------------------------------------------------
  // Workers and the dispatch loop

  function MakeReport(verify: Verifier, clock: Clock, index: nat, tc: TestCase): (rep: TestReport)
    ensures rep.index == index && rep.name == tc.name
    ensures Passed(rep) == verify(tc).passed && rep.err == verify(tc).err
  {
    var outcome := verify(tc);
    TestReport(index, tc.name, outcome.passed, outcome.err, clock(index))
  }

  /** One worker: call the verifier, hand the report to the collector, maybe set the flag. */
  function Worker(s: State, verify: Verifier, clock: Clock, index: nat, tc: TestCase): (t: State)
    ensures t.reports == s.reports + [MakeReport(verify, clock, index, tc)]
    ensures t.closing <==> s.closing || (s.stopOnFailure && !verify(tc).passed)
    ensures t.workers == s.workers && t.stopOnFailure == s.stopOnFailure
    ensures Consistent(s) ==> Consistent(t)
  {
    var rep := MakeReport(verify, clock, index, tc);
    var t := Collect(s, rep);
    if !Passed(rep) then ShouldStopOnFailure(t) else t
  }

  /** The reports of a block of tests run in order, the first one getting index next + 1. */
  function Reports(verify: Verifier, clock: Clock, tests: seq<TestCase>, next: nat): (reps: seq<TestReport>)
    ensures |reps| == |tests|
    ensures forall i :: 0 <= i < |tests| ==> reps[i] == MakeReport(verify, clock, next + i + 1, tests[i])
    decreases |tests|
  {
    if tests == [] then []
    else [MakeReport(verify, clock, next + 1, tests[0])] + Reports(verify, clock, tests[1..], next + 1)
  }

  /** Position of the first test the verifier fails, or |tests| when it fails none. */
  function FirstFailure(verify: Verifier, tests: seq<TestCase>): (f: nat)
    ensures f <= |tests|
    ensures forall i :: 0 <= i < f ==> verify(tests[i]).passed
    ensures f < |tests| ==> !verify(tests[f]).passed
    decreases |tests|
  {
    if tests == [] then 0
    else if !verify(tests[0]).passed then 0
    else 1 + FirstFailure(verify, tests[1..])
  }

  /** How many tests the sequential loop dispatches from a given state. */
  function Dispatched(s: State, verify: Verifier, tests: seq<TestCase>): (k: nat)
    ensures k <= |tests|
  {
    var f := FirstFailure(verify, tests);
    if s.closing then 0
    else if s.stopOnFailure && f < |tests| then f + 1
    else |tests|
  }

  /** The dispatch loop, from the test that would get index next + 1 onwards. */
  function Dispatch(s: State, verify: Verifier, clock: Clock, tests: seq<TestCase>, next: nat): (t: State)
    ensures s.closing ==> t == s
    ensures t.workers == s.workers && t.stopOnFailure == s.stopOnFailure
    decreases |tests|
  {
    if tests == [] || IsClosing(s) then s
    else Dispatch(Worker(s, verify, clock, next + 1, tests[0]), verify, clock, tests[1..], next + 1)
  }

  /**
   * Up to the closing flag, which the end of Run sets anyway, the dispatch
   * loop is the collector draining the reports of the dispatched prefix in
   * declaration order.
   */
  lemma {:induction false} DispatchIsCollectingPrefix(s: State, verify: Verifier, clock: Clock, tests: seq<TestCase>, next: nat)
    ensures Stop(Dispatch(s, verify, clock, tests, next))
         == Stop(CollectAll(s, Reports(verify, clock, tests[..Dispatched(s, verify, tests)], next)))
    decreases |tests|
  {
    var k := Dispatched(s, verify, tests);
    if tests == [] || s.closing {
      assert tests[..k] == [];
    } else {
      var rep := MakeReport(verify, clock, next + 1, tests[0]);
      var w := Worker(s, verify, clock, next + 1, tests[0]);
      var rest := tests[1..];
      var k' := Dispatched(w, verify, rest);
      DispatchIsCollectingPrefix(w, verify, clock, rest, next + 1);
      assert FirstFailure(verify, tests) == if verify(tests[0]).passed then 1 + FirstFailure(verify, rest) else 0;
      assert k == k' + 1;
      assert tests[..k][1..] == rest[..k'];
      assert Reports(verify, clock, tests[..k], next) == [rep] + Reports(verify, clock, rest[..k'], next + 1);
      assert CollectAll(s, Reports(verify, clock, tests[..k], next))
          == CollectAll(Collect(s, rep), Reports(verify, clock, rest[..k'], next + 1));
      if w.closing && !s.closing {
        assert k' == 0;
        assert rest[..k'] == [];
        assert w == Stop(Collect(s, rep));
      } else {
        assert w == Collect(s, rep);
      }
    }
  }

  // ---------------------------------------------------------------------
  // The verdict and Run

  /** The verdict loop: false at the first failed report, true otherwise. */
  function Verdict(reps: seq<TestReport>): (ok: bool)
    ensures ok <==> forall i :: 0 <= i < |reps| ==> Passed(reps[i])
    decreases |reps|
  {
    if reps == [] then true
    else if !Passed(reps[0]) then false
    else Verdict(reps[1..])
  }

  /** The verdict depends on which reports are in the log, not on the order they arrived in. */
  lemma VerdictIgnoresOrder(a: seq<TestReport>, b: seq<TestReport>)
    requires multiset(a) == multiset(b)
    ensures Verdict(a) == Verdict(b)
  {
    if !Verdict(a) {
      var i :| 0 <= i < |a| && !Passed(a[i]);
      assert a[i] in multiset(b);
    }
    if !Verdict(b) {
      var i :| 0 <= i < |b| && !Passed(b[i]);
      assert b[i] in multiset(a);
    }
  }

  /** Pool size: as many slots as workers, but never more than there are tests. */
  function GetPoolsize(s: State, suite: Testsuite): (size: int)
    ensures size <= s.workers && size <= |suite.tests|
    ensures size == s.workers || size == |suite.tests|
  {
    if s.workers >= |suite.tests| then |suite.tests| else s.workers
  }

  lemma PoolsizeExamples()
    ensures GetPoolsize(NewRunner(1, 0, false), Testsuite(seq(5, _ => Blank))) == 1
    ensures GetPoolsize(NewRunner(2, 0, false), Testsuite(seq(5, _ => Blank))) == 2
    ensures GetPoolsize(NewRunner(5, 0, false), Testsuite(seq(3, _ => Blank))) == 3
  {
  }

  /** A test case with every field left empty. */
  const Blank: TestCase := TestCase("", "", "", map[], "", Assertions(0, [], map[]))

  /**
   * Run with a pool of one slot. An empty suite is refused up front, before
   * the flag is touched. Otherwise the dispatched prefix is run in order,
   * the flag is set, and the verdict is over the whole log, including
   * reports of earlier runs of the same runner. One slot means one worker,
   * or a suite of a single test; larger pools are RunnerPool.PoolRun. With
   * no worker at all the Go code blocks forever or panics on the pool
   * channel.
   */
  function Run(s: State, verify: Verifier, clock: Clock, suite: Testsuite): (r: RunResult)
    requires |suite.tests| == 0 || GetPoolsize(s, suite) == 1
    ensures |suite.tests| == 0 ==> r == RunResult(s, false, Some(NoTestcases))
    ensures |suite.tests| > 0 ==> r.err.None? && r.state.closing
    ensures |suite.tests| > 0 ==> (r.ok <==> forall i :: 0 <= i < |r.state.reports| ==> Passed(r.state.reports[i]))
    ensures |suite.tests| > 0 ==>
              r.state.reports == s.reports + Reports(verify, clock, suite.tests[..Dispatched(s, verify, suite.tests)], 0)
    ensures Consistent(s) ==> Consistent(r.state)
  {
    if |suite.tests| < 1 then RunResult(s, false, Some(NoTestcases))
    else
      var t := Stop(Dispatch(s, verify, clock, suite.tests, 0));
      var reps := Reports(verify, clock, suite.tests[..Dispatched(s, verify, suite.tests)], 0);
      DispatchIsCollectingPrefix(s, verify, clock, suite.tests, 0);
      CollectAllLines(s, reps);
      LinesOfAppend(s.reports, reps);
      RunResult(t, Verdict(t.reports), None)
  }

  // ---------------------------------------------------------------------
  // Properties of Run

  /** Counting the verifier's passes over a block of tests. */
  function CountPassing(verify: Verifier, tests: seq<TestCase>): (n: nat)
    ensures n <= |tests|
    decreases |tests|
  {
    if tests == [] then 0 else (if verify(tests[0]).passed then 1 else 0) + CountPassing(verify, tests[1..])
  }

  lemma {:induction false} CountOfReports(verify: Verifier, clock: Clock, tests: seq<TestCase>, next: nat)
    ensures CountPassed(Reports(verify, clock, tests, next)) == CountPassing(verify, tests)
    decreases |tests|
  {
    if tests != [] {
      var reps := Reports(verify, clock, tests, next);
      assert reps[1..] == Reports(verify, clock, tests[1..], next + 1);
      CountOfReports(verify, clock, tests[1..], next + 1);
    }
  }

  lemma {:induction false} CountPassedOfAppend(a: seq<TestReport>, b: seq<TestReport>)
    ensures CountPassed(a + b) == CountPassed(a) + CountPassed(b)
    decreases |a|
  {
    if a == [] {
      assert a + b == b;
    } else {
      assert (a + b)[1..] == a[1..] + b;
      CountPassedOfAppend(a[1..], b);
    }
  }

  /**
   * Without stop-on-failure and with the flag unset, every test is run once:
   * the i-th new report is the one for declaration position i, and the pass
   * count is the verifier's pass count.
   */
  lemma RunDispatchesAll(s: State, verify: Verifier, clock: Clock, suite: Testsuite)
    requires |suite.tests| > 0 && GetPoolsize(s, suite) == 1
    requires !s.closing && !s.stopOnFailure
    ensures var reps := Run(s, verify, clock, suite).state.reports;
            && |reps| == |s.reports| + |suite.tests|
            && (forall i :: 0 <= i < |suite.tests| ==>
                  reps[|s.reports| + i].index == i + 1
                  && reps[|s.reports| + i].name == suite.tests[i].name
                  && Passed(reps[|s.reports| + i]) == verify(suite.tests[i]).passed)
            && CountPassed(reps) == CountPassed(s.reports) + CountPassing(verify, suite.tests)
  {
    var tests := suite.tests;
    assert tests[..|tests|] == tests;
    var added := Reports(verify, clock, tests, 0);
    CountOfReports(verify, clock, tests, 0);
    CountPassedOfAppend(s.reports, added);
  }

  /** What Run appends to the log: the reports of the dispatched prefix, in order. */
  lemma RunAddsDispatched(s: State, verify: Verifier, clock: Clock, suite: Testsuite)
    requires |suite.tests| > 0 && GetPoolsize(s, suite) == 1
    ensures Run(s, verify, clock, suite).state.reports[|s.reports|..]
         == Reports(verify, clock, suite.tests[..Dispatched(s, verify, suite.tests)], 0)
  {
  }

  /** The reports of the prefix that ends at the first failure: all pass but the last, which fails if any test does. */
  lemma ReportsUpToFailure(verify: Verifier, clock: Clock, tests: seq<TestCase>)
    ensures var f := FirstFailure(verify, tests);
            var n := if f < |tests| then f + 1 else |tests|;
            var added := Reports(verify, clock, tests[..n], 0);
            && |added| == n
            && (forall i :: 0 <= i < n ==> added[i] == MakeReport(verify, clock, i + 1, tests[i]))
            && (forall i :: 0 <= i < n - 1 ==> Passed(added[i]))
            && (f < |tests| ==> !Passed(added[n - 1]))
  {
    var f := FirstFailure(verify, tests);
    var n := if f < |tests| then f + 1 else |tests|;
    var added := Reports(verify, clock, tests[..n], 0);
    forall i | 0 <= i < n
      ensures added[i] == MakeReport(verify, clock, i + 1, tests[i])
    {
      assert tests[..n][i] == tests[i];
    }
  }

  /**
   * With stop-on-failure and the flag unset, the new reports are exactly the
   * suite's prefix up to and including the first failure, in order; tests
   * after it get no report.
   */
  lemma RunStopsAtFirstFailure(s: State, verify: Verifier, clock: Clock, suite: Testsuite)
    requires |suite.tests| > 0 && GetPoolsize(s, suite) == 1
    requires !s.closing && s.stopOnFailure
    ensures var added := Run(s, verify, clock, suite).state.reports[|s.reports|..];
            var f := FirstFailure(verify, suite.tests);
            var n := if f < |suite.tests| then f + 1 else |suite.tests|;
            && |added| == n
            && (forall i :: 0 <= i < n ==> added[i] == MakeReport(verify, clock, i + 1, suite.tests[i]))
            && (forall i :: 0 <= i < n - 1 ==> Passed(added[i]))
            && (f < |suite.tests| ==> !Passed(added[n - 1]))
  {
    RunAddsDispatched(s, verify, clock, suite);
    ReportsUpToFailure(verify, clock, suite.tests);
  }

  /**
   * A runner whose flag is already set dispatches nothing and prints nothing;
   * its verdict is that of the log it already holds, so a fresh runner that
   * was stopped before Run reports success.
   */
  lemma RunWhenClosing(s: State, verify: Verifier, clock: Clock, suite: Testsuite)
    requires |suite.tests| > 0 && GetPoolsize(s, suite) == 1
    requires s.closing
    ensures Run(s, verify, clock, suite).state == s
    ensures Run(s, verify, clock, suite).ok == Verdict(s.reports)
    ensures s.reports == [] ==> Run(s, verify, clock, suite).ok
  {
    assert suite.tests[..0] == [];
  }

  /** The flag never goes back to unset: not in a worker, not in the loop, not across Run. */
  lemma ClosingIsMonotone(s: State, verify: Verifier, clock: Clock, suite: Testsuite, index: nat, tc: TestCase)
    requires |suite.tests| == 0 || GetPoolsize(s, suite) == 1
    requires IsClosing(s)
    ensures IsClosing(Worker(s, verify, clock, index, tc))
    ensures IsClosing(Dispatch(s, verify, clock, suite.tests, 0))
    ensures IsClosing(Run(s, verify, clock, suite).state)
  {
  }

  /** From a fresh runner, the output is one write per report, on stdout iff it passed. */
  lemma OutputFollowsLog(workers: int, timeout: int, stopOnFailure: bool, verify: Verifier, clock: Clock, suite: Testsuite)
    requires |suite.tests| == 0 || GetPoolsize(NewRunner(workers, timeout, stopOnFailure), suite) == 1
    ensures var t := Run(NewRunner(workers, timeout, stopOnFailure), verify, clock, suite).state;
            && Consistent(t)
            && |t.stdout| + |t.stderr| == |t.reports|
            && |t.stdout| == CountPassed(t.reports)
  {
    var t := Run(NewRunner(workers, timeout, stopOnFailure), verify, clock, suite).state;
    OneLinePerReport(t.reports);
  }

  /** The fake requester of the package's tests: it fails exactly the test named "fail". */
  function FailNamedFail(tc: TestCase): Outcome {
    if tc.name == "fail" then Outcome(false, Some("testRequester fake failure")) else Outcome(true, None)
  }

  /** The package's "one case should fail" and "stop on failure" scenarios, one worker each. */
  lemma RunnerTestScenarios(clock: Clock)
    ensures var suite := Testsuite([Blank.(name := "fail"), Blank, Blank]);
            var r := Run(NewRunner(1, 1_000_000_000, false), FailNamedFail, clock, suite);
            !r.ok && |r.state.reports| == 3 && CountPassed(r.state.reports) == 2
    ensures var suite := Testsuite([Blank.(name := "fail"), Blank, Blank]);
            var r := Run(NewRunner(1, 1_000_000_000, true), FailNamedFail, clock, suite);
            !r.ok && |r.state.reports| == 1 && CountPassed(r.state.reports) == 0
  {
    var suite := Testsuite([Blank.(name := "fail"), Blank, Blank]);
    assert FirstFailure(FailNamedFail, suite.tests) == 0;
    RunDispatchesAll(NewRunner(1, 1_000_000_000, false), FailNamedFail, clock, suite);
    assert CountPassing(FailNamedFail, suite.tests[2..]) == 1;
    assert CountPassing(FailNamedFail, suite.tests) == 2;
    RunStopsAtFirstFailure(NewRunner(1, 1_000_000_000, true), FailNamedFail, clock, suite);
  }

  /** The package's "all cases pass" scenario, one worker. */
  lemma AllCasesPassScenario(clock: Clock)
    ensures var r := Run(NewRunner(1, 1_000_000_000, false), FailNamedFail, clock, Testsuite([Blank, Blank, Blank]));
            r.ok && |r.state.reports| == 3 && CountPassed(r.state.reports) == 3
  {
    var suite := Testsuite([Blank, Blank, Blank]);
    var s := NewRunner(1, 1_000_000_000, false);
    RunDispatchesAll(s, FailNamedFail, clock, suite);
    assert CountPassing(FailNamedFail, suite.tests[2..]) == 1;
    assert CountPassing(FailNamedFail, suite.tests) == 3;
    var reps := Run(s, FailNamedFail, clock, suite).state.reports;
    assert forall i :: 0 <= i < |reps| ==> Passed(reps[i]);
  }

  /** The package's "all cases fail" scenario, one worker. */
  lemma AllCasesFailScenario(clock: Clock)
    ensures var bad := Blank.(name := "fail");
            var r := Run(NewRunner(1, 1_000_000_000, false), FailNamedFail, clock, Testsuite([bad, bad, bad]));
            !r.ok && |r.state.reports| == 3 && CountPassed(r.state.reports) == 0
  {
    var bad := Blank.(name := "fail");
    var suite := Testsuite([bad, bad, bad]);
    var s := NewRunner(1, 1_000_000_000, false);
    RunDispatchesAll(s, FailNamedFail, clock, suite);
    assert CountPassing(FailNamedFail, suite.tests[2..]) == 0;
    assert CountPassing(FailNamedFail, suite.tests) == 0;
    var reps := Run(s, FailNamedFail, clock, suite).state.reports;
    assert !Passed(reps[0]);
  }

  /** An empty suite is refused with an error, no report and no output line. */
  lemma EmptySuiteRefused(s: State, verify: Verifier, clock: Clock)
    ensures var r := Run(s, verify, clock, Testsuite([]));
            !r.ok && r.err == Some(NoTestcases) && r.state.reports == s.reports
            && r.state.stdout == s.stdout && r.state.stderr == s.stderr && r.state.closing == s.closing
  {
  }
}
