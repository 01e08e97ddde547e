/**
 * The HTTP verifier: checks that a test case is well formed, sends one
 * request, and checks the response against the declared status code and
 * body patterns, stopping at the first failed check.
 *
 * The network is a parameter: a transport maps the outgoing request to what
 * came back. Regular-expression matching is a parameter too: a matcher says
 * whether a pattern matches a text, or `None` when the pattern does not
 * compile.
 */
module Requester {
  import opened Wrappers
  import opened Text
  import opened Core

  /** The parts of the outgoing request that the test case determines. */
  datatype OutgoingRequest = OutgoingRequest(
    verb: string,
    url: string,
    headers: map<string, string>,
    body: Option<string>
  )

  datatype BodyRead = BodyText(text: string) | BodyError(err: string)

  /** What came of trying to send the request. */
  datatype Exchange =
    | BuildError(err: string)                // the request could not be constructed
    | SendError(err: string)                 // the request failed in transit (timeouts included)
    | Response(status: int, body: BodyRead)  // a response, whose body is read only on demand

  type Transport = OutgoingRequest -> Exchange

  type Matcher = (string, string) -> Option<bool>

  const MethodGet: string := "GET"
  const StatusOK: int := 200

  function Fail(msg: string): Outcome {
    Outcome(false, Some(msg))
  }

  const Pass: Outcome := Outcome(true, None)

  /** The method sent: upper-cased, or GET when none is declared. */
  function EffectiveMethod(verb: string): (m: string)
    ensures m != ""
    ensures forall i :: 0 <= i < |m| ==> !IsLower(m[i])
    ensures verb != "" ==> |m| == |verb|
  {
    if verb != "" then ToUpper(verb) else MethodGet
  }

  /** The status expected: 200 when none (0) is declared. */
  function EffectiveStatus(code: int): (s: int)
    ensures s != 0
    ensures code == 0 ==> s == StatusOK
    ensures code != 0 ==> s == code
  {
    if code == 0 then StatusOK else code
  }

  /** The request built from a test case; its body is attached only when non-empty. */
  function Outgoing(tc: TestCase): (req: OutgoingRequest)
    ensures req.url == tc.url && req.headers == tc.headers
    ensures req.verb == EffectiveMethod(tc.verb)
    ensures req.body.Some? <==> tc.body != ""
    ensures req.body.Some? ==> req.body.value == tc.body
  {
    OutgoingRequest(EffectiveMethod(tc.verb), tc.url, tc.headers, if tc.body == "" then None else Some(tc.body))
  }

  /** Position of the first pattern that does not match `text`, or |patterns| when all match. */
  function FirstUnmatched(patterns: seq<string>, text: string, matches: Matcher): (k: nat)
    ensures k <= |patterns|
    ensures forall i :: 0 <= i < k ==> matches(patterns[i], text) == Some(true)
    ensures k < |patterns| ==> matches(patterns[k], text) != Some(true)
  {
    if patterns == [] then 0
    else if matches(patterns[0], text) != Some(true) then 0
    else 1 + FirstUnmatched(patterns[1..], text, matches)
  }

  /** Every check passes: the declarative reading of the verifier. */
  predicate Accepts(tc: TestCase, ex: Exchange, matches: Matcher) {
    && tc.name != ""
    && tc.url != ""
    && ex.Response?
    && ex.status == EffectiveStatus(tc.assertions.statusCode)
    && (tc.assertions.body == []
        || (ex.body.BodyText? && forall p :: p in tc.assertions.body ==> matches(p, ex.body.text) == Some(true)))
  }

  /** The checks that follow a well-formed test case: transport, status, body patterns. */
  function CheckExchange(tc: TestCase, ex: Exchange, matches: Matcher): (r: Outcome)
    requires tc.name != "" && tc.url != ""
    ensures r.passed <==> r.err.None?
    ensures r.passed <==> Accepts(tc, ex, matches)
  {
    match ex
    case BuildError(e) => Fail("could not create request: " + e)
    case SendError(e) => Fail("request failed: " + e)
    case Response(status, body) =>
      var expected := EffectiveStatus(tc.assertions.statusCode);
      var patterns := tc.assertions.body;
      if status != expected then
        Fail("expected status-code: " + IntToString(expected) + " received: " + IntToString(status))
      else if |patterns| == 0 then Pass
      else match body
        case BodyError(e) => Fail("unable to read the response body with with error: " + e)
        case BodyText(text) =>
          var k := FirstUnmatched(patterns, text, matches);
          if k < |patterns| then Fail("can not match /" + patterns[k] + "/ in response body")
          else Pass
  }

  /** The verifier: a test case without a name or URL is rejected before anything is sent. */
  function Request(tc: TestCase, transport: Transport, matches: Matcher): (r: Outcome)
    ensures r.passed <==> r.err.None?
    ensures r.passed <==> Accepts(tc, transport(Outgoing(tc)), matches)
    ensures tc.name == "" ==> r == Outcome(false, Some("does not have name field"))
    ensures tc.name != "" && tc.url == "" ==> r == Outcome(false, Some("does not have url field"))
  {
    if tc.name == "" then Fail("does not have name field")
    else if tc.url == "" then Fail("does not have url field")
    else CheckExchange(tc, transport(Outgoing(tc)), matches)
  }

  /** A test case without a name or URL gets the same answer whatever the network does. */
  lemma MalformedNeverSends(tc: TestCase, t1: Transport, t2: Transport, matches: Matcher)
    requires tc.name == "" || tc.url == ""
    ensures Request(tc, t1, matches) == Request(tc, t2, matches)
    ensures !Request(tc, t1, matches).passed
  {
  }

  /** The only thing the verifier asks of the network is the one request built from the test case. */
  lemma OnlyOutgoingIsSent(tc: TestCase, t1: Transport, t2: Transport, matches: Matcher)
    requires t1(Outgoing(tc)) == t2(Outgoing(tc))
    ensures Request(tc, t1, matches) == Request(tc, t2, matches)
  {
  }

  /** Normalising the method twice is normalising it once; an empty method is sent as GET. */
  lemma EffectiveMethodIdempotent(verb: string)
    ensures EffectiveMethod(EffectiveMethod(verb)) == EffectiveMethod(verb)
    ensures verb == "" ==> EffectiveMethod(verb) == "GET"
    ensures verb != "" ==> EffectiveMethod(verb) == ToUpper(verb)
  {
    if verb != "" {
      ToUpperIdempotent(verb);
    }
  }

  /** A failed construction or send is reported, wrapped, before any assertion is looked at. */
  lemma TransportErrorSkipsAssertions(tc: TestCase, ex: Exchange, m1: Matcher, m2: Matcher)
    requires tc.name != "" && tc.url != ""
    requires !ex.Response?
    ensures CheckExchange(tc, ex, m1) == CheckExchange(tc, ex, m2)
    ensures ex.BuildError? ==> CheckExchange(tc, ex, m1) == Fail("could not create request: " + ex.err)
    ensures ex.SendError? ==> CheckExchange(tc, ex, m1) == Fail("request failed: " + ex.err)
  {
  }

  /** A status other than the expected one (200 when undeclared) fails, naming both codes. */
  lemma StatusMismatchReported(tc: TestCase, status: int, body: BodyRead, matches: Matcher)
    requires tc.name != "" && tc.url != ""
    requires status != EffectiveStatus(tc.assertions.statusCode)
    ensures CheckExchange(tc, Response(status, body), matches)
         == Fail("expected status-code: " + IntToString(EffectiveStatus(tc.assertions.statusCode))
                 + " received: " + IntToString(status))
  {
  }

  /**
   * A test case that declares no status (0) accepts a response exactly when it
   * is 200, as far as the status decides it.
   */
  lemma UndeclaredStatusMeansOK(tc: TestCase, status: int, body: BodyRead, matches: Matcher)
    requires tc.name != "" && tc.url != ""
    requires tc.assertions.statusCode == 0
    ensures CheckExchange(tc, Response(status, body), matches).passed ==> status == StatusOK
    ensures tc.assertions.body == [] ==>
              (CheckExchange(tc, Response(status, body), matches).passed <==> status == StatusOK)
  {
  }

  /** With the right status and no body patterns, the body is never read: any read outcome passes. */
  lemma NoPatternsIgnoresBody(tc: TestCase, body: BodyRead, matches: Matcher)
    requires tc.name != "" && tc.url != ""
    requires tc.assertions.body == []
    ensures CheckExchange(tc, Response(EffectiveStatus(tc.assertions.statusCode), body), matches) == Pass
  {
  }

  /** The first pattern that does not match (an invalid one included) is the one reported. */
  lemma {:induction false} FirstUnmatchedIsFirst(patterns: seq<string>, text: string, matches: Matcher, k: nat)
    requires k < |patterns|
    requires forall i :: 0 <= i < k ==> matches(patterns[i], text) == Some(true)
    requires matches(patterns[k], text) != Some(true)
    ensures FirstUnmatched(patterns, text, matches) == k
    decreases k
  {
    if k > 0 {
      assert matches(patterns[0], text) == Some(true);
      FirstUnmatchedIsFirst(patterns[1..], text, matches, k - 1);
    }
  }

  lemma FirstFailingPatternReported(tc: TestCase, text: string, matches: Matcher, k: nat)
    requires tc.name != "" && tc.url != ""
    requires k < |tc.assertions.body|
    requires forall i :: 0 <= i < k ==> matches(tc.assertions.body[i], text) == Some(true)
    requires matches(tc.assertions.body[k], text) != Some(true)
    ensures CheckExchange(tc, Response(EffectiveStatus(tc.assertions.statusCode), BodyText(text)), matches)
         == Fail("can not match /" + tc.assertions.body[k] + "/ in response body")
  {
    FirstUnmatchedIsFirst(tc.assertions.body, text, matches, k);
  }

  /** The status-mismatch case of the package's own table: nothing declared, 500 received. */
  lemma StatusMismatchExample(transport: Transport, matches: Matcher)
    requires transport(OutgoingRequest("GET", "example.com", map[], None)) == Response(500, BodyText(""))
    ensures Request(TestCase("test", "example.com", "", map[], "", Assertions(0, [], map[])), transport, matches)
         == Fail("expected status-code: 200 received: 500")
  {
    var tc := TestCase("test", "example.com", "", map[], "", Assertions(0, [], map[]));
    assert Outgoing(tc) == OutgoingRequest("GET", "example.com", map[], None);
    assert NatToString(20) == "20";
    assert NatToString(50) == "50";
    assert IntToString(200) == "200" && IntToString(500) == "500";
    assert transport(Outgoing(tc)) == Response(500, BodyText(""));
    assert Request(tc, transport, matches) == Fail("expected status-code: " + "200" + " received: " + "500");
    assert "expected status-code: " + "200" + " received: " + "500" == "expected status-code: 200 received: 500";
  }
}
