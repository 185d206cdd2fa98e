/**
 * `std::time::Duration`: whole seconds as a `u64` plus a sub-second nanosecond part
 * below one second. Two durations are equal exactly when both parts are.
 */
module Durations {
  import opened Numbers

  const NANOS_PER_SEC: nat := 1_000_000_000
  const NANOS_PER_MILLI: nat := 1_000_000
  const MILLIS_PER_SEC: nat := 1_000

  type Nanos = n: nat | n < NANOS_PER_SEC

  datatype Duration = Duration(secs: u64, nanos: Nanos)

  /** The length of a duration in nanoseconds. */
  function TotalNanos(d: Duration): nat {
    d.secs * NANOS_PER_SEC + d.nanos
  }

  /** `Duration::from_secs(secs)`. */
  function FromSecs(secs: u64): (d: Duration)
    ensures TotalNanos(d) == secs * MILLIS_PER_SEC * NANOS_PER_MILLI
  {
    Duration(secs, 0)
  }

  /** `Duration::from_millis(millis)`: `millis / 1000` seconds and the rest as nanoseconds. */
  function FromMillis(millis: u64): (d: Duration)
    ensures TotalNanos(d) == millis * NANOS_PER_MILLI
  {
    Duration(millis / MILLIS_PER_SEC, (millis % MILLIS_PER_SEC) * NANOS_PER_MILLI)
  }

  /** A duration is determined by its length: the (seconds, nanoseconds) split is unique. */
  lemma TotalNanosInjective(a: Duration, b: Duration)
    requires TotalNanos(a) == TotalNanos(b)
    ensures a == b
  {
  }

  /** `n` seconds and `n * 1000` milliseconds are the same `Duration` whenever the latter fits in a `u64`. */
  lemma SecsAsMillis(n: u64)
    requires n * MILLIS_PER_SEC < U64_LIMIT
    ensures FromSecs(n) == FromMillis(n * MILLIS_PER_SEC)
  {
  }
}
