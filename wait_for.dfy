/**
 * `WaitFor` (testcontainers/src/core/image.rs): one readiness condition of a started
 * container, and the constructors that build one. How a runner evaluates a condition
 * (log matching, health polling, sleeping) is not part of this model.
 */
module WaitConditions {
  import opened Wrappers
  import opened Numbers
  import Durations

  datatype WaitFor =
    | Nothing                          // met at once; the fallback value
    | StdOutMessage(message: string)   // a message on the container's stdout
    | StdErrMessage(message: string)   // a message on the container's stderr
    | Duration(length: Durations.Duration)
    | Healthcheck                      // the engine reports the container healthy

  /** `WaitFor::message_on_stdout`. */
  function MessageOnStdout(message: string): (w: WaitFor)
    ensures w.StdOutMessage? && w.message == message
  {
    StdOutMessage(message)
  }

  /** `WaitFor::message_on_stderr`. */
  function MessageOnStderr(message: string): (w: WaitFor)
    ensures w.StdErrMessage? && w.message == message
  {
    StdErrMessage(message)
  }

  /** `WaitFor::seconds(length)`: a wait of `length` seconds, i.e. `length * 1000` ms. */
  function Seconds(length: u64): (w: WaitFor)
    ensures w.Duration?
    ensures Durations.TotalNanos(w.length) == length * 1000 * Durations.NANOS_PER_MILLI
  {
    Duration(Durations.FromSecs(length))
  }

  /** `WaitFor::millis(length)`: a wait of `length` milliseconds. */
  function Millis(length: u64): (w: WaitFor)
    ensures w.Duration?
    ensures Durations.TotalNanos(w.length) == length * Durations.NANOS_PER_MILLI
  {
    Duration(Durations.FromMillis(length))
  }

  /**
   * `WaitFor::millis_in_env_var(name)`, given the outcome of looking `name` up in the
   * process environment (`None` when it is unset or not Unicode). A value that parses as
   * a `u64` gives a wait of that many milliseconds; anything else gives `Nothing`. It never
   * fails.
   */
  function MillisInEnvVar(lookup: Option<string>): (w: WaitFor)
    ensures w.Duration? <==> lookup.Some? && ParseU64(lookup.value).Some?
    ensures w.Duration? ==> w == Millis(ParseU64(lookup.value).value)
    ensures !w.Duration? ==> w == Nothing
  {
    var parsed := if lookup.Some? then ParseU64(lookup.value) else None;
    if parsed.Some? then Duration(Durations.FromMillis(parsed.value)) else Nothing
  }

  /** `seconds(n)` and `millis(n * 1000)` build the same condition. */
  lemma SecondsAreMillis(n: u64)
    requires n * 1000 < U64_LIMIT
    ensures Seconds(n) == Millis(n * 1000)
  {
    Durations.SecsAsMillis(n);
  }

  /** An environment value written as a decimal number of milliseconds is read back as that wait, unless it overflows a `u64`. */
  lemma MillisInEnvVarReadsDecimal(m: nat)
    ensures MillisInEnvVar(Some(ToDecimal(m))) == if m < U64_LIMIT then Millis(m) else Nothing
  {
    DecimalRoundTrip(m);
  }

  /** An unset variable and values that are not unsigned decimals fall back to `Nothing`. */
  lemma MillisInEnvVarFallsBack()
    ensures MillisInEnvVar(None) == Nothing
    ensures MillisInEnvVar(Some("")) == Nothing
    ensures MillisInEnvVar(Some("abc")) == Nothing
    ensures MillisInEnvVar(Some("-5")) == Nothing
    ensures MillisInEnvVar(Some("250")) == Millis(250)
  {
    ParseRejectsNonNumbers();
    assert !IsDigit("-5"[0]);
  }
}
