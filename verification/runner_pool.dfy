/**
 * Run with a pool of more than one slot. Workers then overlap, so two things
 * are no longer fixed by the suite: how many tests the loop dispatches before
 * it sees the closing flag, and the order in which their reports reach the
 * collector. A schedule names both: a count `k` of dispatched tests (always a
 * prefix of the suite, since the loop walks it in order) and an arrival order
 * over them.
 *
 * Which counts are possible follows from when the flag can be set: only a
 * failing worker sets it, and only with stop-on-failure on. So an unset flag
 * with stop-on-failure off lets every test through; with it on, every test up
 * to and including the first failing one gets through, and any number of
 * later ones may slip in while that worker is still running.
 */
module RunnerPool {
  import opened Wrappers
  import opened Core
  import opened Report
  import opened Runner

  /** The dispatch counts some interleaving of a pool can produce. */
  predicate Feasible(s: State, verify: Verifier, tests: seq<TestCase>, k: nat) {
    var f := FirstFailure(verify, tests);
    && k <= |tests|
    && (if s.closing then k == 0
        else if s.stopOnFailure && f < |tests| then f + 1 <= k
        else k == |tests|)
  }

  /** `order[j]` is the position, within the dispatched prefix, of the j-th report to arrive. */
  predicate IsArrivalOrder(order: seq<nat>, k: nat) {
    && |order| == k
    && (forall j :: 0 <= j < k ==> order[j] < k)
    && (forall j, j' :: 0 <= j < j' < k ==> order[j] != order[j'])
    && (forall i :: 0 <= i < k ==> i in order)
  }

  /** The reports rearranged into arrival order. */
  function Arrived<T>(reps: seq<T>, order: seq<nat>): (arr: seq<T>)
    requires forall j :: 0 <= j < |order| ==> order[j] < |reps|
    ensures |arr| == |order|
    ensures forall j :: 0 <= j < |order| ==> arr[j] == reps[order[j]]
  {
    seq(|order|, j requires 0 <= j < |order| => reps[order[j]])
  }

  function Identity(k: nat): (order: seq<nat>)
    ensures IsArrivalOrder(order, k)
    ensures forall j :: 0 <= j < k ==> order[j] == j
  {
    var order := seq(k, j => j);
    forall i | 0 <= i < k
      ensures i in order
    {
      assert order[i] == i;
    }
    order
  }

  /**
   * Run under one schedule: the dispatched prefix is run, its reports are
   * collected in arrival order, the flag is set, and the verdict is read off
   * the whole log.
   */
  function PoolRun(s: State, verify: Verifier, clock: Clock, suite: Testsuite, k: nat, order: seq<nat>): (r: RunResult)
    requires |suite.tests| == 0 || s.workers >= 1
    requires Feasible(s, verify, suite.tests, k)
    requires IsArrivalOrder(order, k)
    ensures |suite.tests| == 0 ==> r == RunResult(s, false, Some(NoTestcases))
    ensures |suite.tests| > 0 ==> r.err.None? && r.state.closing
    ensures |suite.tests| > 0 ==> |r.state.reports| == |s.reports| + k
    ensures r.state.reports[..|s.reports|] == s.reports
  {
    if |suite.tests| < 1 then RunResult(s, false, Some(NoTestcases))
    else
      var arr := Arrived(Reports(verify, clock, suite.tests[..k], 0), order);
      var t := Stop(CollectAll(s, arr));
      assert t.reports[..|s.reports|] == s.reports;
      RunResult(t, Verdict(t.reports), None)
  }

  /** The count the sequential loop dispatches is feasible, and it is the smallest feasible count. */
  lemma DispatchedIsLeastFeasible(s: State, verify: Verifier, tests: seq<TestCase>, k: nat)
    ensures Feasible(s, verify, tests, Dispatched(s, verify, tests))
    ensures Feasible(s, verify, tests, k) ==> Dispatched(s, verify, tests) <= k
  {
  }

  /** With stop-on-failure off and the flag unset, every schedule dispatches the whole suite. */
  lemma NoStopDispatchesAll(s: State, verify: Verifier, tests: seq<TestCase>, k: nat)
    requires !s.closing && !s.stopOnFailure
    ensures Feasible(s, verify, tests, k) <==> k == |tests|
  {
  }

  /** A pool of one slot is the sequential loop: its only schedule is the least count in declaration order. */
  lemma SequentialIsASchedule(s: State, verify: Verifier, clock: Clock, suite: Testsuite)
    requires |suite.tests| == 0 || GetPoolsize(s, suite) == 1
    ensures var k := Dispatched(s, verify, suite.tests);
            Feasible(s, verify, suite.tests, k)
            && PoolRun(s, verify, clock, suite, k, Identity(k)) == Run(s, verify, clock, suite)
  {
    var k := Dispatched(s, verify, suite.tests);
    if |suite.tests| > 0 {
      var reps := Reports(verify, clock, suite.tests[..k], 0);
      assert Arrived(reps, Identity(k)) == reps;
      DispatchIsCollectingPrefix(s, verify, clock, suite.tests, 0);
    }
  }

  /** Every element arrives. */
  lemma ArrivalsCoverAll<T>(xs: seq<T>, order: seq<nat>)
    requires IsArrivalOrder(order, |xs|)
    ensures forall i :: 0 <= i < |xs| ==> xs[i] in Arrived(xs, order)
  {
    forall i | 0 <= i < |xs|
      ensures xs[i] in Arrived(xs, order)
    {
      assert i in order;
      var j :| 0 <= j < |xs| && order[j] == i;
      assert Arrived(xs, order)[j] == xs[i];
    }
  }

  /** The log a schedule leaves behind, and the verdict read off it. */
  lemma PoolRunLog(s: State, verify: Verifier, clock: Clock, suite: Testsuite, k: nat, order: seq<nat>)
    requires |suite.tests| > 0 && s.workers >= 1
    requires Feasible(s, verify, suite.tests, k)
    requires IsArrivalOrder(order, k)
    ensures var r := PoolRun(s, verify, clock, suite, k, order);
            && r.state.reports == s.reports + Arrived(Reports(verify, clock, suite.tests[..k], 0), order)
            && r.ok == Verdict(r.state.reports)
  {
  }

  /**
   * `added` holds the reports of the first k tests, one each: every element
   * is the report of a test among them, no index occurs twice, and every one
   * of them has its report present.
   */
  predicate EachReportedOnce(added: seq<TestReport>, verify: Verifier, clock: Clock, tests: seq<TestCase>, k: nat)
    requires k <= |tests|
  {
    && |added| == k
    && (forall j :: 0 <= j < k ==>
          1 <= added[j].index <= k
          && added[j] == MakeReport(verify, clock, added[j].index, tests[added[j].index - 1]))
    && (forall j, j' :: 0 <= j < j' < k ==> added[j].index != added[j'].index)
    && (forall i :: 0 <= i < k ==> MakeReport(verify, clock, i + 1, tests[i]) in added)
  }

  /** The arrivals of a schedule: each is a dispatched test's report, and each dispatched test's report arrives. */
  lemma ScheduledArrivals(verify: Verifier, clock: Clock, tests: seq<TestCase>, k: nat, order: seq<nat>)
    requires k <= |tests|
    requires IsArrivalOrder(order, k)
    ensures var arr := Arrived(Reports(verify, clock, tests[..k], 0), order);
            && |arr| == k
            && (forall j :: 0 <= j < k ==> arr[j].index == order[j] + 1)
            && (forall j :: 0 <= j < k ==> arr[j] == MakeReport(verify, clock, arr[j].index, tests[arr[j].index - 1]))
            && (forall i :: 0 <= i < k ==> MakeReport(verify, clock, i + 1, tests[i]) in arr)
  {
    var xs := Reports(verify, clock, tests[..k], 0);
    var arr := Arrived(xs, order);
    ArrivalsCoverAll(xs, order);
    forall j | 0 <= j < k
      ensures arr[j].index == order[j] + 1
      ensures arr[j] == MakeReport(verify, clock, arr[j].index, tests[arr[j].index - 1])
    {
      assert arr[j] == xs[order[j]];
      assert tests[..k][order[j]] == tests[order[j]];
    }
    forall i | 0 <= i < k
      ensures MakeReport(verify, clock, i + 1, tests[i]) in arr
    {
      assert xs[i] in arr;
      assert tests[..k][i] == tests[i];
    }
  }

  /** No two arrivals carry the same index. */
  lemma ArrivalIndicesDistinct(verify: Verifier, clock: Clock, tests: seq<TestCase>, k: nat, order: seq<nat>)
    requires k <= |tests|
    requires IsArrivalOrder(order, k)
    ensures var arr := Arrived(Reports(verify, clock, tests[..k], 0), order);
            forall j, j' :: 0 <= j < j' < k ==> arr[j].index != arr[j'].index
  {
    ScheduledArrivals(verify, clock, tests, k, order);
  }

  lemma ArrivalsEachReportedOnce(verify: Verifier, clock: Clock, tests: seq<TestCase>, k: nat, order: seq<nat>)
    requires k <= |tests|
    requires IsArrivalOrder(order, k)
    ensures EachReportedOnce(Arrived(Reports(verify, clock, tests[..k], 0), order), verify, clock, tests, k)
  {
    ScheduledArrivals(verify, clock, tests, k, order);
    ArrivalIndicesDistinct(verify, clock, tests, k, order);
  }

  /**
   * The new reports are exactly the dispatched tests' reports, one each,
   * whatever the arrival order.
   */
  lemma PoolReportsEachDispatchedOnce(s: State, verify: Verifier, clock: Clock, suite: Testsuite, k: nat, order: seq<nat>)
    requires |suite.tests| > 0 && s.workers >= 1
    requires Feasible(s, verify, suite.tests, k)
    requires IsArrivalOrder(order, k)
    ensures EachReportedOnce(PoolRun(s, verify, clock, suite, k, order).state.reports[|s.reports|..], verify, clock, suite.tests, k)
  {
    var arr := Arrived(Reports(verify, clock, suite.tests[..k], 0), order);
    PoolRunLog(s, verify, clock, suite, k, order);
    ArrivalsEachReportedOnce(verify, clock, suite.tests, k, order);
    var reps := PoolRun(s, verify, clock, suite, k, order).state.reports;
    assert reps[|s.reports|..] == arr;
  }

  /** The arrivals all passed iff every dispatched test passed. */
  lemma ArrivalsVerdict(verify: Verifier, clock: Clock, tests: seq<TestCase>, k: nat, order: seq<nat>)
    requires k <= |tests|
    requires IsArrivalOrder(order, k)
    ensures Verdict(Arrived(Reports(verify, clock, tests[..k], 0), order))
        <==> forall i :: 0 <= i < k ==> verify(tests[i]).passed
  {
    var arr := Arrived(Reports(verify, clock, tests[..k], 0), order);
    ScheduledArrivals(verify, clock, tests, k, order);
    if Verdict(arr) {
      forall i | 0 <= i < k
        ensures verify(tests[i]).passed
      {
        var rep := MakeReport(verify, clock, i + 1, tests[i]);
        assert rep in arr;
        var j :| 0 <= j < k && arr[j] == rep;
        assert Passed(arr[j]);
      }
    }
  }

  /** A log passes iff both of its parts pass. */
  lemma VerdictOfAppend(a: seq<TestReport>, b: seq<TestReport>)
    ensures Verdict(a + b) <==> Verdict(a) && Verdict(b)
  {
    if Verdict(a) && Verdict(b) {
      assert forall i :: 0 <= i < |a + b| ==> (a + b)[i] == if i < |a| then a[i] else b[i - |a|];
    }
    if Verdict(a + b) {
      assert forall i :: 0 <= i < |a| ==> a[i] == (a + b)[i];
      assert forall i :: 0 <= i < |b| ==> b[i] == (a + b)[|a| + i];
    }
  }

  /** The verdict: the earlier log passed and every dispatched test passed; arrival order plays no part. */
  lemma PoolVerdict(s: State, verify: Verifier, clock: Clock, suite: Testsuite, k: nat, order: seq<nat>)
    requires |suite.tests| > 0 && s.workers >= 1
    requires Feasible(s, verify, suite.tests, k)
    requires IsArrivalOrder(order, k)
    ensures PoolRun(s, verify, clock, suite, k, order).ok
        <==> Verdict(s.reports) && forall i :: 0 <= i < k ==> verify(suite.tests[i]).passed
  {
    var arr := Arrived(Reports(verify, clock, suite.tests[..k], 0), order);
    PoolRunLog(s, verify, clock, suite, k, order);
    ArrivalsVerdict(verify, clock, suite.tests, k, order);
    VerdictOfAppend(s.reports, arr);
  }

  /**
   * Whatever the pool size and the interleaving, Run's answer is the one a
   * one-worker runner with the same log and flags gives: a failing test is
   * always among the dispatched ones, and without a failure every test is
   * dispatched.
   */
  lemma PoolVerdictMatchesSequential(s: State, verify: Verifier, clock: Clock, suite: Testsuite, k: nat, order: seq<nat>)
    requires |suite.tests| == 0 || s.workers >= 1
    requires Feasible(s, verify, suite.tests, k)
    requires IsArrivalOrder(order, k)
    ensures PoolRun(s, verify, clock, suite, k, order).ok == Run(s.(workers := 1), verify, clock, suite).ok
  {
    if |suite.tests| > 0 {
      var tests := suite.tests;
      var one := s.(workers := 1);
      var d := Dispatched(s, verify, tests);
      var f := FirstFailure(verify, tests);
      PoolVerdict(s, verify, clock, suite, k, order);
      SequentialIsASchedule(one, verify, clock, suite);
      PoolVerdict(one, verify, clock, suite, d, Identity(d));
      if f < d {
        assert f < k && !verify(tests[f]).passed;
      } else {
        assert k == d;
      }
    }
  }

  /** Two schedules with the same dispatch count reach the same verdict, whatever their arrival orders. */
  lemma ArrivalOrderIrrelevant(s: State, verify: Verifier, clock: Clock, suite: Testsuite, k: nat, o1: seq<nat>, o2: seq<nat>)
    requires |suite.tests| == 0 || s.workers >= 1
    requires Feasible(s, verify, suite.tests, k)
    requires IsArrivalOrder(o1, k) && IsArrivalOrder(o2, k)
    ensures PoolRun(s, verify, clock, suite, k, o1).ok == PoolRun(s, verify, clock, suite, k, o2).ok
  {
    PoolVerdictMatchesSequential(s, verify, clock, suite, k, o1);
    PoolVerdictMatchesSequential(s, verify, clock, suite, k, o2);
  }

  /** Under any schedule, each report's line goes to stdout iff it passed, in arrival order. */
  lemma PoolOutputFollowsLog(s: State, verify: Verifier, clock: Clock, suite: Testsuite, k: nat, order: seq<nat>)
    requires |suite.tests| == 0 || s.workers >= 1
    requires Feasible(s, verify, suite.tests, k)
    requires IsArrivalOrder(order, k)
    requires Consistent(s)
    ensures Consistent(PoolRun(s, verify, clock, suite, k, order).state)
  {
    if |suite.tests| > 0 {
      var arr := Arrived(Reports(verify, clock, suite.tests[..k], 0), order);
      CollectAllLines(s, arr);
      LinesOfAppend(s.reports, arr);
    }
  }
}
