/**
 * The shared vocabulary of the smoke-test runner: a test suite is an ordered
 * list of test cases, each naming an HTTP request and the assertions its
 * response must meet; a verifier turns one test case into a pass/fail outcome
 * with an optional error text.
 */
module Core {
  import opened Wrappers

  /** Expectations on a response. A status code of 0 means "not declared". */
  datatype Assertions = Assertions(
    statusCode: int,
    body: seq<string>,              // regular expressions the body must match
    headers: map<string, string>    // declared but never checked by the requester
  )

  datatype TestCase = TestCase(
    name: string,
    url: string,
    verb: string,                   // the HTTP method; "method" is a Dafny keyword
    headers: map<string, string>,
    body: string,
    assertions: Assertions
  )

  datatype Testsuite = Testsuite(tests: seq<TestCase>)

  /** What a verifier answers for one test case: Go's `(bool, error)` pair. */
  datatype Outcome = Outcome(passed: bool, err: Option<string>)

  /** The runner's view of a requester: one synchronous call per test case. */
  type Verifier = TestCase -> Outcome
}
