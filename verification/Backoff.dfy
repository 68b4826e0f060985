/** The retry policy: exponential backoff with a cap, jitter and a bounded number of attempts.
    Durations are nanoseconds, `Duration::MAX` at most; the jitter factor is taken over the reals,
    and as in `mul_f64` the product is rounded to the nearest nanosecond, ties to even. */
module Backoff {
  import opened Basics

  const U32_MAX: nat := 0xFFFF_FFFF
  const DURATION_MAX: nat := 0xFFFF_FFFF_FFFF_FFFF * 1_000_000_000 + 999_999_999

  type Duration = d: nat | d <= DURATION_MAX
  type U32 = n: nat | n <= U32_MAX

  datatype ExponentialBackoff = ExponentialBackoff(base: Duration, maxDelay: Duration, maxAttempts: U32, jitter: real)

  datatype PolicyError = InvalidJitter | ZeroMaxAttempts | ZeroRetryBase

  function Validate(b: ExponentialBackoff): Option<PolicyError> {
    if !(0.0 <= b.jitter < 1.0) then Some(InvalidJitter)
    else if b.maxAttempts == 0 then Some(ZeroMaxAttempts)
    else if b.base == 0 then Some(ZeroRetryBase)
    else None
  }

  function Pow2(n: nat): (r: nat)
    ensures r >= 1
  {
    if n == 0 then 1 else 2 * Pow2(n - 1)
  }

  /** `2u32.saturating_pow(attempts)`. */
  function Exponent(attempts: nat): U32 {
    Min(Pow2(attempts), U32_MAX)
  }

  /** `base.saturating_mul(exponent).min(max_delay)`: the delay before jitter. */
  function Capped(b: ExponentialBackoff, attempts: nat): Duration {
    Min(Min(b.base * Exponent(attempts), DURATION_MAX), b.maxDelay)
  }

  /** `jitter * (2 * unit - 1)`: how far the factor swings from one. */
  function Swing(jitter: real, unit: real): real {
    jitter * (2.0 * unit - 1.0)
  }

  /** `unit` is the entropy drawn for this call, in [0, 1]. */
  function JitterFactor(jitter: real, unit: real): real {
    var j := if jitter < 0.0 then 0.0 else if jitter > 1.0 then 1.0 else jitter;
    var f := 1.0 + Swing(j, unit);
    if j <= 0.0 then 1.0 else if f < 0.0 then 0.0 else f
  }

  /** `Duration::mul_f64`, before rounding. */
  function Scale(d: Duration, factor: real): real {
    d as real * factor
  }

  function Delay(b: ExponentialBackoff, attempts: nat, unit: real): real {
    Scale(Capped(b, attempts), JitterFactor(b.jitter, unit))
  }

  function Next(b: ExponentialBackoff, attempts: nat, kind: FailureKind, unit: real): FailureOutcome {
    if kind == Permanent then
      Dead(PermanentError)
    else if Min(attempts + 1, U32_MAX) >= b.maxAttempts then
      Dead(AttemptsExhausted)
    else
      var d := Nearest(Delay(b, attempts, unit));
      Retry(if d < 0 then 0 else d)
  }

  /** The nearest integer; of two equally near, the even one. */
  function Nearest(x: real): int {
    var below := x.Floor;
    var rest := x - below as real;
    if rest < 0.5 || (rest == 0.5 && below % 2 == 0) then below else below + 1
  }

  /** Nothing is nearer, and a tie goes to the even neighbour. */
  lemma NearestIsNearest(x: real, n: int)
    ensures -0.5 <= Nearest(x) as real - x <= 0.5
    ensures n as real - x <= 0.5 && x - n as real <= 0.5 && n % 2 == 0 ==> n == Nearest(x)
    ensures x >= n as real + 0.5 && n % 2 != 0 ==> Nearest(x) > n
    ensures x > n as real + 0.5 ==> Nearest(x) > n
    ensures x <= n as real + 0.5 && n % 2 == 0 ==> Nearest(x) <= n
    ensures x < n as real + 0.5 ==> Nearest(x) <= n
  {
  }

  // ---------------------------------------------------------------- the delay before jitter

  lemma {:induction false} Pow2Monotone(m: nat, n: nat)
    requires m <= n
    ensures Pow2(m) <= Pow2(n)
  {
    if m < n {
      Pow2Monotone(m, n - 1);
    }
  }

  lemma Pow2At32()
    ensures Pow2(31) == 0x8000_0000 && Pow2(32) == 0x1_0000_0000
  {
    assert Pow2(8) == 256;
    assert Pow2(16) == 65536;
    assert Pow2(24) == 0x100_0000;
    assert Pow2(31) == 0x8000_0000;
  }

  lemma ExponentIsExactBelow32(attempts: nat)
    ensures attempts <= 31 ==> Exponent(attempts) == Pow2(attempts)
    ensures attempts >= 32 ==> Exponent(attempts) == U32_MAX < Pow2(attempts)
  {
    Pow2At32();
    if attempts <= 31 {
      Pow2Monotone(attempts, 31);
    } else {
      Pow2Monotone(32, attempts);
    }
  }

  lemma MulMonotone(k: nat, m: nat, n: nat)
    requires m <= n
    ensures k * m <= k * n
    ensures k > 0 && m < n ==> k * m < k * n
  {
  }

  /** The documented formula `min(max_delay, base * 2^attempts)` holds exactly when the exponent has
      not saturated, the cap is within the saturated product, or there is nothing to multiply. */
  lemma CappedFormula(b: ExponentialBackoff, attempts: nat)
    ensures (Capped(b, attempts) == Min(b.maxDelay, b.base * Pow2(attempts))) <==>
            (attempts <= 31 || b.maxDelay <= b.base * U32_MAX || b.base == 0)
  {
    ExponentIsExactBelow32(attempts);
    if attempts >= 32 && b.base > 0 {
      MulMonotone(b.base, U32_MAX, Pow2(attempts));
    }
  }

  /** A policy whose cap is above the saturated product: the documented delay is never reached. */
  lemma FormulaCanFail()
    ensures var b := ExponentialBackoff(1, 0x1_0000_0000, 100, 0.0);
            Validate(b) == None && Capped(b, 32) != Min(b.maxDelay, b.base * Pow2(32))
  {
    var b := ExponentialBackoff(1, 0x1_0000_0000, 100, 0.0);
    CappedFormula(b, 32);
  }

  lemma CappedIsMonotone(b: ExponentialBackoff, m: nat, n: nat)
    requires m <= n
    ensures Capped(b, m) <= Capped(b, n) <= b.maxDelay
    ensures Capped(b, m) > 0 <==> b.base > 0 && b.maxDelay > 0
  {
    Pow2Monotone(m, n);
    MulMonotone(b.base, Exponent(m), Exponent(n));
    MulMonotone(b.base, 1, Exponent(m));
  }

  // ---------------------------------------------------------------- jitter and the verdict

  lemma MulReal(c: real, x: real, y: real)
    requires 0.0 <= c && x <= y
    ensures c * x <= c * y
  {
  }

  lemma SwingWithinJitter(j: real, unit: real)
    requires 0.0 <= j && 0.0 <= unit <= 1.0
    ensures -j <= Swing(j, unit) <= j
  {
    var x := 2.0 * unit - 1.0;
    MulReal(j, -1.0, x);
    MulReal(j, x, 1.0);
    assert Swing(j, unit) == j * x;
  }

  lemma FactorWithinJitter(j: real, unit: real)
    requires 0.0 <= j < 1.0 && 0.0 <= unit <= 1.0
    ensures 1.0 - j <= JitterFactor(j, unit) <= 1.0 + j
  {
    SwingWithinJitter(j, unit);
  }

  lemma ScaleIsMonotone(d: Duration, low: real, high: real)
    requires low <= high
    ensures Scale(d, low) <= Scale(d, high)
  {
    MulReal(d as real, low, high);
  }

  lemma DelayWithinJitter(b: ExponentialBackoff, attempts: nat, unit: real)
    requires Validate(b) == None && 0.0 <= unit <= 1.0
    ensures Scale(Capped(b, attempts), 1.0 - b.jitter) <= Delay(b, attempts, unit)
    ensures Delay(b, attempts, unit) <= Scale(Capped(b, attempts), 1.0 + b.jitter)
  {
    FactorWithinJitter(b.jitter, unit);
    ScaleIsMonotone(Capped(b, attempts), 1.0 - b.jitter, JitterFactor(b.jitter, unit));
    ScaleIsMonotone(Capped(b, attempts), JitterFactor(b.jitter, unit), 1.0 + b.jitter);
  }

  /** Every verdict of the policy: permanent failures die at once, transient ones die exactly when
      this outcome uses up the budget, and otherwise are retried within the jittered cap. */
  lemma NextVerdict(b: ExponentialBackoff, attempts: nat, kind: FailureKind, unit: real)
    requires Validate(b) == None && 0.0 <= unit <= 1.0
    ensures Next(b, attempts, kind, unit) == Dead(PermanentError) <==> kind == Permanent
    ensures Next(b, attempts, kind, unit) == Dead(AttemptsExhausted) <==>
              kind == Transient && attempts + 1 >= b.maxAttempts
    ensures Next(b, attempts, kind, unit).Retry? <==> kind == Transient && attempts + 1 < b.maxAttempts
    ensures Next(b, attempts, kind, unit).Retry? ==>
              var d, exact := Next(b, attempts, kind, unit).delay as real, Delay(b, attempts, unit);
              && -0.5 <= d - exact <= 0.5
              && Scale(Capped(b, attempts), 1.0 - b.jitter) <= exact <= Scale(Capped(b, attempts), 1.0 + b.jitter)
  {
    DelayWithinJitter(b, attempts, unit);
    ScaleIsMonotone(Capped(b, attempts), 0.0, 1.0 - b.jitter);
    NearestIsNearest(Delay(b, attempts, unit), 0);
  }

  /** What is accepted: a jitter of less than everything, at least one attempt, and a base to multiply. */
  lemma ValidateExactly(b: ExponentialBackoff)
    ensures Validate(b) == None <==> 0.0 <= b.jitter < 1.0 && b.maxAttempts >= 1 && b.base >= 1
    ensures Validate(b) == Some(InvalidJitter) <==> !(0.0 <= b.jitter < 1.0)
    ensures Validate(b) == Some(ZeroMaxAttempts) ==> b.maxAttempts == 0
    ensures Validate(b) == Some(ZeroRetryBase) ==> b.base == 0
  {
  }

  /** The middle draw gives the capped delay itself, the lowest and the highest its two ends. */
  lemma DrawsAt(b: ExponentialBackoff, attempts: nat)
    requires Validate(b) == None
    ensures Delay(b, attempts, 0.0) == Capped(b, attempts) as real * (1.0 - b.jitter)
    ensures Delay(b, attempts, 0.5) == Capped(b, attempts) as real
    ensures Delay(b, attempts, 1.0) == Capped(b, attempts) as real * (1.0 + b.jitter)
  {
    FactorIs(b.jitter, 0.0);
    FactorIs(b.jitter, 0.5);
    FactorIs(b.jitter, 1.0);
  }

  /** In between, the delay grows by the same amount for the same distance of the draw ... */
  lemma DrawSpreadsDelay(b: ExponentialBackoff, attempts: nat, low: real, high: real)
    requires Validate(b) == None && 0.0 <= low <= high <= 1.0
    ensures Delay(b, attempts, high) - Delay(b, attempts, low)
            == Capped(b, attempts) as real * (b.jitter * (2.0 * (high - low)))
  {
    FactorIs(b.jitter, low);
    FactorIs(b.jitter, high);
    Spread(Capped(b, attempts) as real, b.jitter, low, high);
  }

  lemma Spread(c: real, j: real, low: real, high: real)
    ensures c * (1.0 + j * (2.0 * high - 1.0)) - c * (1.0 + j * (2.0 * low - 1.0)) == c * (j * (2.0 * (high - low)))
  {
    Distribute(c, 1.0 + j * (2.0 * low - 1.0), 1.0 + j * (2.0 * high - 1.0));
    SwingGap(j, low, high);
  }

  /** ... and so strictly, unless there is nothing to spread. */
  lemma DelayGrowsWithDraw(b: ExponentialBackoff, attempts: nat, low: real, high: real)
    requires Validate(b) == None && 0.0 <= low < high <= 1.0 && b.jitter > 0.0 && b.maxDelay > 0
    ensures Delay(b, attempts, low) < Delay(b, attempts, high)
  {
    CappedIsMonotone(b, attempts, attempts);
    Steeper(b.jitter, low, high);
    ScaleGrows(Capped(b, attempts), JitterFactor(b.jitter, low), JitterFactor(b.jitter, high));
  }

  lemma Steeper(j: real, low: real, high: real)
    requires 0.0 < j < 1.0 && 0.0 <= low < high <= 1.0
    ensures JitterFactor(j, low) < JitterFactor(j, high)
  {
    FactorIs(j, low);
    FactorIs(j, high);
    assert j * (2.0 * high - 1.0) - j * (2.0 * low - 1.0) == j * (2.0 * (high - low));
    assert j * (2.0 * (high - low)) > 0.0;
  }

  lemma Times(x: real, y: real)
    requires x > 0.0 && y > 0.0
    ensures x * y > 0.0
  {
  }

  lemma ScaleGrows(d: Duration, low: real, high: real)
    requires d > 0 && low < high
    ensures Scale(d, low) < Scale(d, high)
  {
    Distribute(d as real, low, high);
    Times(d as real, high - low);
  }

  lemma FactorIs(j: real, unit: real)
    requires 0.0 <= j < 1.0 && 0.0 <= unit <= 1.0
    ensures JitterFactor(j, unit) == 1.0 + j * (2.0 * unit - 1.0)
  {
    SwingWithinJitter(j, unit);
  }

  lemma Distribute(c: real, x: real, y: real)
    ensures c * y - c * x == c * (y - x)
  {
  }

  lemma SwingGap(j: real, low: real, high: real)
    ensures (1.0 + j * (2.0 * high - 1.0)) - (1.0 + j * (2.0 * low - 1.0)) == j * (2.0 * (high - low))
  {
    Distribute(j, 2.0 * low - 1.0, 2.0 * high - 1.0);
  }

  // ---------------------------------------------------------------- "never zero"

  /** The lowest draw gives the lowest factor, `1 - jitter`. */
  lemma LowestDelay(b: ExponentialBackoff, attempts: nat)
    requires Validate(b) == None
    ensures Delay(b, attempts, 0.0) == Scale(Capped(b, attempts), 1.0 - b.jitter)
  {
    assert Swing(b.jitter, 0.0) == -b.jitter;
  }

  /** Whatever is drawn, the computed delay is at least `n`. */
  ghost predicate AlwaysAtLeast(b: ExponentialBackoff, attempts: nat, n: nat) {
    forall unit | 0.0 <= unit <= 1.0 ::
      Next(b, attempts, Transient, unit).Retry? && Next(b, attempts, Transient, unit).delay >= n
  }

  /** The smallest delay is the one of the lowest draw. */
  lemma LowestDrawDecides(b: ExponentialBackoff, attempts: nat, n: nat)
    requires Validate(b) == None && attempts + 1 < b.maxAttempts
    ensures AlwaysAtLeast(b, attempts, n) <==> Nearest(Scale(Capped(b, attempts), 1.0 - b.jitter)) >= n
  {
    var low := Scale(Capped(b, attempts), 1.0 - b.jitter);
    LowestDelay(b, attempts);
    ScaleIsMonotone(Capped(b, attempts), 0.0, 1.0 - b.jitter);
    NearestIsNearest(low, 0);
    assert AlwaysAtLeast(b, attempts, n) ==> Next(b, attempts, Transient, 0.0).delay >= n;
    if Nearest(low) >= n {
      forall unit | 0.0 <= unit <= 1.0
        ensures Next(b, attempts, Transient, unit).Retry? && Next(b, attempts, Transient, unit).delay >= n
      {
        DelayWithinJitter(b, attempts, unit);
        NearestIsMonotone(low, Delay(b, attempts, unit));
      }
    }
  }

  lemma NearestIsMonotone(x: real, y: real)
    requires x <= y
    ensures Nearest(x) <= Nearest(y)
  {
    assert x.Floor <= y.Floor;
  }

  /** Exactly when the computed delay is never zero, whatever is drawn: when the capped delay less its
      jitter is more than half a nanosecond. */
  lemma NeverZeroExactly(b: ExponentialBackoff, attempts: nat)
    requires Validate(b) == None && attempts + 1 < b.maxAttempts
    ensures AlwaysAtLeast(b, attempts, 1) <==> Scale(Capped(b, attempts), 1.0 - b.jitter) > 0.5
  {
    LowestDrawDecides(b, attempts, 1);
    NearestIsNearest(Scale(Capped(b, attempts), 1.0 - b.jitter), 0);
  }

  /** Exactly when a retry is never immediate in the table, which keeps whole milliseconds: when the
      capped delay less its jitter rounds to a millisecond at least. */
  lemma NeverImmediateExactly(b: ExponentialBackoff, attempts: nat)
    requires Validate(b) == None && attempts + 1 < b.maxAttempts
    ensures (forall unit | 0.0 <= unit <= 1.0 ::
               Next(b, attempts, Transient, unit).Retry? && Interval(Next(b, attempts, Transient, unit).delay) > 0)
            <==> Scale(Capped(b, attempts), 1.0 - b.jitter) >= 999_999.5
  {
    LowestDrawDecides(b, attempts, MILLISECOND);
    NearestIsNearest(Scale(Capped(b, attempts), 1.0 - b.jitter), 999_999);
    forall d: nat ensures Interval(d) > 0 <==> d >= MILLISECOND {
    }
  }

  /** Two validated policies whose delay can be zero: one by its jitter, one by a cap of zero, which
      validation lets through. */
  lemma DelayCanBeZero()
    ensures var jittered := ExponentialBackoff(1, 1, 10, 0.9);
            Validate(jittered) == None && Next(jittered, 0, Transient, 0.0) == Retry(0)
    ensures var capped := ExponentialBackoff(1, 0, 10, 0.0);
            Validate(capped) == None && forall unit :: Next(capped, 0, Transient, unit) == Retry(0)
  {
    var jittered := ExponentialBackoff(1, 1, 10, 0.9);
    assert Capped(jittered, 0) == 1;
    LowestDelay(jittered, 0);
    assert Delay(jittered, 0, 0.0) == 0.1;
    var capped := ExponentialBackoff(1, 0, 10, 0.0);
    forall unit ensures Next(capped, 0, Transient, unit) == Retry(0) {
      assert Delay(capped, 0, unit) == 0.0;
    }
  }
}
