/**
 * The result record of one executed test case and the one-line rendering the
 * collector prints for it. Durations are whole centiseconds, so the
 * two-decimal seconds field is exact.
 */
module Report {
  import opened Wrappers
  import opened Text
  import opened Fmt

  datatype TestReport = TestReport(
    index: nat,           // 1-based declaration position
    name: string,
    status: bool,
    err: Option<string>,
    duration: nat         // centiseconds
  )

  function Passed(rep: TestReport): bool {
    rep.status
  }

  const PassHead: string := "PASS: testcase #"
  const FailHead: string := "FAIL: testcase #"

  /** Go's `%s` of an `error`: its message, or fmt's marker for a nil operand. */
  function ErrText(err: Option<string>): string {
    match err
    case Some(msg) => msg
    case None => NilString
  }

  /** What stands between the index and the opening parenthesis of the duration. */
  function Middle(rep: TestReport): (m: string)
    ensures |m| >= 2 && m[..2] == " \""
  {
    if Passed(rep) then " \"" + rep.name + "\" "
    else " \"" + rep.name + "\" " + ErrText(rep.err) + " "
  }

  /**
   * `PASS: testcase #<index> "<name>" (<secs>s)` for a passed report,
   * `FAIL: testcase #<index> "<name>" <reason> (<secs>s)` otherwise.
   */
  function String(rep: TestReport): string {
    Layout(if Passed(rep) then PassHead else FailHead, NatToString(rep.index), Middle(rep), FormatCentis(rep.duration))
  }

  /** Which of the two formats a line uses is decided by the verdict alone. */
  lemma HeadFollowsVerdict(rep: TestReport)
    ensures StartsWith(String(rep), PassHead) <==> Passed(rep)
    ensures StartsWith(String(rep), FailHead) <==> !Passed(rep)
  {
    var head := if Passed(rep) then PassHead else FailHead;
    LayoutPieces(head, NatToString(rep.index), Middle(rep), FormatCentis(rep.duration));
  }

  /** The fields a log scraper can recover from a line without ambiguity. */
  datatype LineSummary = LineSummary(passed: bool, index: nat, duration: nat)

  /**
   * Reads the verdict and index from the front of a line and the duration
   * from the last parenthesis; the name and reason in between may contain
   * anything.
   */
  function ParseLine(line: string): Option<LineSummary> {
    if |line| < |PassHead| then None
    else
      var head := line[..|PassHead|];
      var rest := line[|PassHead|..];
      var n := DigitRun(rest);
      if (head != PassHead && head != FailHead) || n == 0 || !EndsWith(line, "s)") then None
      else match LastIndexOf(line, '(')
        case None => None
        case Some(open) =>
          if open + 1 > |line| - 2 then None
          else match ParseCentis(line[open + 1..|line| - 2])
            case None => None
            case Some(d) => Some(LineSummary(head == PassHead, ParseNat(rest[..n]), d))
  }

  /** The common shape of both line formats. */
  function Layout(head: string, digits: string, middle: string, secs: string): string {
    head + digits + middle + "(" + secs + "s)"
  }

  lemma LayoutPieces(head: string, digits: string, middle: string, secs: string)
    requires |head| == |PassHead|
    ensures Layout(head, digits, middle, secs)[..|PassHead|] == head
    ensures Layout(head, digits, middle, secs)[|PassHead|..] == digits + (middle + "(" + secs + "s)")
    ensures Layout(head, digits, middle, secs) == (head + digits + middle) + ['('] + (secs + "s)")
    ensures EndsWith(Layout(head, digits, middle, secs), "s)")
    ensures Layout(head, digits, middle, secs)[|head + digits + middle| + 1..|Layout(head, digits, middle, secs)| - 2] == secs
  {
  }

  lemma ParseLineOfLayout(head: string, index: nat, middle: string, duration: nat)
    requires head == PassHead || head == FailHead
    requires |middle| > 0 && middle[0] == ' '
    ensures ParseLine(Layout(head, NatToString(index), middle, FormatCentis(duration)))
         == Some(LineSummary(head == PassHead, index, duration))
  {
    var digits := NatToString(index);
    var secs := FormatCentis(duration);
    var line := Layout(head, digits, middle, secs);
    var pre := head + digits + middle;
    LayoutPieces(head, digits, middle, secs);
    var rest := line[|PassHead|..];
    DigitRunOfDigitsThen(digits, middle + "(" + secs + "s)");
    assert DigitRun(rest) == |digits|;
    assert rest[..|digits|] == digits;
    ParseNatOfNatToString(index);
    FormatCentisLacks(duration, '(');
    assert '(' !in secs + "s)";
    LastIndexOfAfter(pre, '(', secs + "s)");
    assert LastIndexOf(line, '(') == Some(|pre|);
    ParseCentisOfFormatCentis(duration);
    assert ParseCentis(line[|pre| + 1..|line| - 2]) == Some(duration);
  }

  /** Every rendered line reads back to its verdict, index and duration. */
  lemma ParseLineOfString(rep: TestReport)
    ensures ParseLine(String(rep)) == Some(LineSummary(Passed(rep), rep.index, rep.duration))
  {
    ParseLineOfLayout(if Passed(rep) then PassHead else FailHead, rep.index, Middle(rep), rep.duration);
  }

  /** A failed line carries the reason right before the duration. */
  lemma FailLineShowsReason(rep: TestReport)
    requires !Passed(rep)
    ensures EndsWith(String(rep), "\" " + ErrText(rep.err) + " (" + FormatCentis(rep.duration) + "s)")
  {
    var secs := FormatCentis(rep.duration);
    var mid := "\" " + ErrText(rep.err) + " ";
    var x := FailHead + NatToString(rep.index) + " \"" + rep.name;
    assert Middle(rep) == " \"" + rep.name + mid;
    assert String(rep) == x + (mid + "(" + secs + "s)");
    assert mid + "(" + secs + "s)" == "\" " + ErrText(rep.err) + " (" + secs + "s)";
  }

  /** A failed line, cut at the reason: everything up to it, the reason, and the duration after it. */
  lemma FailStringAroundReason(rep: TestReport)
    requires !Passed(rep)
    ensures String(rep) == (FailHead + NatToString(rep.index) + " \"" + rep.name + "\" ")
                           + (ErrText(rep.err) + (" (" + FormatCentis(rep.duration) + "s)"))
  {
    var head := FailHead + NatToString(rep.index);
    var reason := ErrText(rep.err);
    var secs := FormatCentis(rep.duration);
    assert Middle(rep) == (" \"" + rep.name + "\" ") + (reason + " ");
    assert String(rep) == head + Middle(rep) + "(" + secs + "s)";
    assert (reason + " ") + "(" + secs + "s)" == reason + (" (" + secs + "s)");
  }

  /** A passed line shows no reason: it depends on the index, name and duration only. */
  lemma PassLineIgnoresReason(a: TestReport, b: TestReport)
    requires Passed(a) && Passed(b)
    requires a.index == b.index && a.name == b.name && a.duration == b.duration
    ensures String(a) == String(b)
  {
  }

  /** The passed line of the package's own table of cases. */
  lemma RenderedPassExample()
    ensures String(TestReport(1, "a", true, None, 100)) == "PASS: testcase #1 \"a\" (1.00s)"
  {
    assert NatToString(1) == "1";
    assert TwoDigits(0) == "00";
    assert FormatCentis(100) == "1.00";
    assert Middle(TestReport(1, "a", true, None, 100)) == " \"a\" ";
  }

  /** The failed line of the package's own table of cases. */
  lemma RenderedFailExample()
    ensures String(TestReport(2, "b", false, Some("reason"), 200)) == "FAIL: testcase #2 \"b\" reason (2.00s)"
  {
    assert NatToString(2) == "2";
    assert TwoDigits(0) == "00";
    assert FormatCentis(200) == "2.00";
    assert Middle(TestReport(2, "b", false, Some("reason"), 200)) == " \"b\" reason ";
  }
}
