/** Value types shared by every part of the model. */
module Basics {
  datatype Option<+T> = None | Some(value: T)

  datatype Result<+T, +E> = Ok(value: T) | Err(error: E)

  /** A point on a clock's axis (the database's `now()`, or a worker's `Instant`). */
  type Time = int

  /** A message id. The program only ever compares two of them for equality. */
  type MessageId = nat

  /** The lease-ownership guard key. */
  type WorkerId = string

  datatype FailureKind = Transient | Permanent

  datatype DeadReason = PermanentError | AttemptsExhausted | Expired | Undecodable

  /** What a retry policy decided about one failed publish. */
  datatype FailureOutcome = Retry(delay: nat) | Dead(reason: DeadReason)

  function Min(a: nat, b: nat): nat {
    if a <= b then a else b
  }

  /** Durations and times are in nanoseconds. */
  const MILLISECOND: nat := 1_000_000

  const I64_MAX: nat := 0x7FFF_FFFF_FFFF_FFFF

  /** A duration as a statement sees it: whole milliseconds, clamped to `i64`. */
  function Interval(d: nat): nat {
    Min(d / MILLISECOND, I64_MAX) * MILLISECOND
  }

  /** The duration rounded down to the millisecond, as long as its milliseconds fit in 64 bits. */
  lemma IntervalIsWholeMillis(d: nat)
    ensures Interval(d) % 1_000_000 == 0
    ensures d < 0x8000_0000_0000_0000 * 1_000_000 ==> Interval(d) <= d < Interval(d) + 1_000_000
    ensures d >= 0x8000_0000_0000_0000 * 1_000_000 ==> Interval(d) == 0x7FFF_FFFF_FFFF_FFFF * 1_000_000
  {
    assert d == d / 1_000_000 * 1_000_000 + d % 1_000_000;
  }

  lemma SmallerSet<T>(a: set<T>, b: set<T>)
    requires a < b
    ensures |a| < |b|
  {
    var x :| x in b && x !in a;
    assert |b - a| > 0 && b == a + (b - a);
  }
}
