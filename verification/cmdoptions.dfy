/**
 * The command-line front end after flag parsing: defaults for flags that were
 * not given, the seconds-to-duration conversion of the timeout, and the
 * validation that reports the first unusable option.
 *
 * Durations are Go `time.Duration` values: nanoseconds held in a signed
 * 64-bit integer.
 */
module CmdOptions {
  import opened Wrappers

  const Second: int := 1_000_000_000
  const MinInt64: int := -0x8000_0000_0000_0000
  const MaxInt64: int := 0x7fff_ffff_ffff_ffff
  const TwoTo64: int := 0x1_0000_0000_0000_0000

  predicate InInt64(x: int) {
    MinInt64 <= x <= MaxInt64
  }

  const DefaultWorkers: int := 1
  const DefaultTimeoutSeconds: int := 10
  const DefaultStopOnFailure: bool := false

  /** The flags as parsed; `None` for a flag that was not given. Go's `int` is 64 bits wide. */
  datatype CommandLine = CommandLine(
    testsuite: Option<string>,
    workers: Option<int>,
    timeoutSeconds: Option<int>,
    stopOnFailure: Option<bool>
  )

  predicate Parsable(cl: CommandLine) {
    && (cl.workers.Some? ==> InInt64(cl.workers.value))
    && (cl.timeoutSeconds.Some? ==> InInt64(cl.timeoutSeconds.value))
  }

  datatype InputOptions = InputOptions(
    testsuiteFile: string,
    workers: int,
    timeout: int,          // nanoseconds
    stopOnFailure: bool
  )

  /**
   * Defaults and conversion. A flag that was given is kept as given, one that
   * was not takes its default, and the timeout is stored as the number of
   * whole seconds, exactly.
   */
  function AddOptions(cl: CommandLine): (o: InputOptions)
    ensures o.timeout % Second == 0 && o.timeout / Second == ValueOr(cl.timeoutSeconds, DefaultTimeoutSeconds)
    ensures cl.testsuite.None? ==> o.testsuiteFile == ""
    ensures cl.workers.None? ==> o.workers == DefaultWorkers
    ensures cl.stopOnFailure.None? ==> o.stopOnFailure == DefaultStopOnFailure
    ensures cl.testsuite.Some? ==> o.testsuiteFile == cl.testsuite.value
    ensures cl.workers.Some? ==> o.workers == cl.workers.value
    ensures cl.stopOnFailure.Some? ==> o.stopOnFailure == cl.stopOnFailure.value
  {
    InputOptions(
      ValueOr(cl.testsuite, ""),
      ValueOr(cl.workers, DefaultWorkers),
      ValueOr(cl.timeoutSeconds, DefaultTimeoutSeconds) * Second,
      ValueOr(cl.stopOnFailure, DefaultStopOnFailure))
  }

  /** For a whole number of seconds, "at least one nanosecond" is "at least one second". */
  lemma TimeoutCheckIsSecondsCheck(cl: CommandLine)
    ensures AddOptions(cl).timeout < 1 <==> ValueOr(cl.timeoutSeconds, DefaultTimeoutSeconds) < 1
  {
  }

  /** The first unusable option, checked in the order path, workers, timeout. */
  function Validate(o: InputOptions): (err: Option<string>)
    ensures err.None? <==> o.testsuiteFile != "" && o.workers >= 1 && o.timeout >= 1
    ensures o.testsuiteFile == "" ==> err == Some("-testsuite is required")
    ensures o.testsuiteFile != "" && o.workers < 1 ==> err == Some("-workers only accept a number >= 1")
    ensures o.testsuiteFile != "" && o.workers >= 1 && o.timeout < 1 ==> err == Some("-timeout only accept a number >= 1")
  {
    if o.testsuiteFile == "" then Some("-testsuite is required")
    else if o.workers < 1 then Some("-workers only accept a number >= 1")
    else if o.timeout < 1 then Some("-timeout only accept a number >= 1")
    else None
  }

  /** The options are handed back whether or not they are valid. */
  datatype InstallResult = InstallResult(options: InputOptions, err: Option<string>)

  function InstallFlags(cl: CommandLine): (r: InstallResult)
    ensures r.options == AddOptions(cl)
    ensures r.err.None? <==>
              && ValueOr(cl.testsuite, "") != ""
              && ValueOr(cl.workers, DefaultWorkers) >= 1
              && ValueOr(cl.timeoutSeconds, DefaultTimeoutSeconds) >= 1
  {
    var o := AddOptions(cl);
    TimeoutCheckIsSecondsCheck(cl);
    InstallResult(o, Validate(o))
  }

  /** With nothing but a suite path, the defaults are one worker, ten seconds and no stop on failure. */
  lemma DefaultsExample()
    ensures InstallFlags(CommandLine(Some("test"), None, None, None))
         == InstallResult(InputOptions("test", 1, 10 * Second, false), None)
    ensures InstallFlags(CommandLine(Some("test"), Some(2), Some(5), Some(true)))
         == InstallResult(InputOptions("test", 2, 5 * Second, true), None)
    ensures InstallFlags(CommandLine(None, None, None, Some(true))).err == Some("-testsuite is required")
    ensures InstallFlags(CommandLine(Some("test"), Some(0), None, None)).err == Some("-workers only accept a number >= 1")
    ensures InstallFlags(CommandLine(Some("test"), None, Some(0), None)).err == Some("-timeout only accept a number >= 1")
  {
  }

  // The conversion as the source writes it: a 64-bit multiplication that wraps.

  /** Two's-complement wrap-around of a mathematical integer into 64 bits. */
  function Wrap64(x: int): (r: int)
    ensures InInt64(r)
    ensures (x - r) % TwoTo64 == 0
    ensures InInt64(x) ==> r == x
  {
    (x - MinInt64) % TwoTo64 + MinInt64
  }

  function AddOptionsAsWritten(cl: CommandLine): (o: InputOptions)
    requires Parsable(cl)
    ensures InInt64(o.timeout)
    ensures InInt64(ValueOr(cl.timeoutSeconds, DefaultTimeoutSeconds) * Second) ==> o == AddOptions(cl)
  {
    var o := AddOptions(cl);
    o.(timeout := Wrap64(o.timeout))
  }

  function InstallFlagsAsWritten(cl: CommandLine): (r: InstallResult)
    requires Parsable(cl)
    ensures r.options == AddOptionsAsWritten(cl)
    ensures r.err.None? <==> ValueOr(cl.testsuite, "") != "" && ValueOr(cl.workers, DefaultWorkers) >= 1 && r.options.timeout >= 1
  {
    var o := AddOptionsAsWritten(cl);
    InstallResult(o, Validate(o))
  }

  /**
   * A timeout of 18446744074 seconds is accepted and stored as 290448384 ns,
   * about 0.29 s; a timeout of 9223372037 seconds, also at least one, is
   * rejected as if it were below one.
   */
  lemma TimeoutWrapCounterexample()
    ensures InstallFlagsAsWritten(CommandLine(Some("test"), None, Some(18446744074), None))
         == InstallResult(InputOptions("test", 1, 290448384, false), None)
    ensures InstallFlagsAsWritten(CommandLine(Some("test"), None, Some(9223372037), None)).err
         == Some("-timeout only accept a number >= 1")
    ensures InstallFlags(CommandLine(Some("test"), None, Some(18446744074), None)).options.timeout
         == 18446744074 * Second
    ensures InstallFlags(CommandLine(Some("test"), None, Some(9223372037), None)).err == None
  {
    assert Wrap64(18446744074 * Second) == 290448384;
    assert Wrap64(9223372037 * Second) < 0;
  }
}
