/** Retry with backoff, internal/backoff/backoff.go.

    Durations are whole nanoseconds in int64: products and sums wrap where the source's do.  The
    exponential strategies compute over exact reals. */
module Backoffs {
  import opened Naturals
  import opened Reals
  import opened Widths

  // ------------------------------------------------------------------ Fibonacci

  /** The Fibonacci numbers. */
  function Fib(n: nat): nat {
    if n < 2 then n else Fib(n - 1) + Fib(n - 2)
  }

  predicate IsInt64(n: int) {
    -TWO_TO_THE_63 <= n < TWO_TO_THE_63
  }

  lemma WrapExact(n: int)
    ensures WrapInt64(n) == n <==> IsInt64(n)
    ensures IsInt64(WrapInt64(n))
  {
  }

  lemma WrapPeriodic(n: int, k: int)
    ensures WrapInt64(n - k * TWO_TO_THE_64) == WrapInt64(n)
  {
  }

  /** Wrapping subtracts some multiple of 2^64. */
  lemma WrapQuotient(n: int) returns (k: int)
    ensures WrapInt64(n) == n - k * TWO_TO_THE_64
  {
    k := (n + TWO_TO_THE_63) / TWO_TO_THE_64;
  }

  lemma WrapAdds(x: int, y: int)
    ensures WrapInt64(WrapInt64(x) + WrapInt64(y)) == WrapInt64(x + y)
  {
    var p := WrapQuotient(x);
    var q := WrapQuotient(y);
    WrapPeriodic(x + y, p + q);
  }

  /** The loop, in int64: one for n <= 0, and otherwise the n-th Fibonacci number modulo 2^64. */
  method FibonacciLoop(n: int) returns (b: int)
    ensures n <= 0 ==> b == 1
    ensures n >= 1 ==> b == WrapInt64(Fib(n))
  {
    if n <= 0 {
      return 1;
    }
    var a := 0;
    b := 1;
    var i := 1;
    while i < n
      invariant 1 <= i <= n
      invariant a == WrapInt64(Fib(i - 1)) && b == WrapInt64(Fib(i))
    {
      WrapAdds(Fib(i - 1), Fib(i));
      a, b := b, WrapInt64(a + b);
      i := i + 1;
    }
  }

  /** What the loop returns. */
  function Fibonacci(n: int): int {
    if n <= 0 then 1 else WrapInt64(Fib(n))
  }

  lemma {:induction false} FibMonotone(m: nat, n: nat)
    requires m <= n
    ensures Fib(m) <= Fib(n)
    ensures n >= 1 ==> Fib(n) >= 1
    decreases n
  {
    if n >= 2 {
      FibMonotone(n - 1, n - 1);
      if m < n {
        FibMonotone(m, n - 1);
      }
    }
  }

  /** Eight places at a time. */
  lemma Climb(i: nat, a: nat, b: nat)
    requires Fib(i) == a && Fib(i + 1) == b
    ensures Fib(i + 8) == 13 * a + 21 * b
    ensures Fib(i + 9) == 21 * a + 34 * b
  {
    assert Fib(i + 2) == a + b;
    assert Fib(i + 3) == a + 2 * b;
    assert Fib(i + 4) == 2 * a + 3 * b;
    assert Fib(i + 5) == 3 * a + 5 * b;
    assert Fib(i + 6) == 5 * a + 8 * b;
    assert Fib(i + 7) == 8 * a + 13 * b;
    assert Fib(i + 8) == 13 * a + 21 * b;
  }

  lemma FibAt52()
    ensures Fib(52) == 32951280099 && Fib(53) == 53316291173
  {
    assert Fib(4) == 3 && Fib(5) == 5;
    hide Fib;
    Climb(4, 3, 5);
    Climb(12, 144, 233);
    Climb(20, 6765, 10946);
    Climb(28, 317811, 514229);
    Climb(36, 14930352, 24157817);
    Climb(44, 701408733, 1134903170);
  }

  lemma FibAt92()
    ensures Fib(92) == 7540113804746346429 && Fib(93) == 12200160415121876738
  {
    FibAt52();
    hide Fib;
    Climb(52, 32951280099, 53316291173);
    Climb(60, 1548008755920, 2504730781961);
    Climb(68, 72723460248141, 117669030460994);
    Climb(76, 3416454622906707, 5527939700884757);
    Climb(84, 160500643816367088, 259695496911122585);
  }

  /** The loop computes the Fibonacci number exactly up to the 92nd and never after it. */
  lemma FibonacciExact(n: nat)
    requires n >= 1
    ensures Fibonacci(n) == Fib(n) <==> n <= 92
  {
    FibAt92();
    WrapExact(Fib(n));
    if n <= 92 {
      FibMonotone(n, 92);
    } else {
      FibMonotone(93, n);
    }
  }

  // ------------------------------------------------------------------ strategies

  datatype Strategy =
    | Fixed(interval: int, maxRetryCount: int)
    | Exponential(initial: int, maxInterval: int, maxRetryCount: int, multiplier: real)
    | RandomExponential(initial: int, maxInterval: int, maxRetryCount: int, multiplier: real)
    | FibonacciBackoff(initial: int, maxInterval: int, maxRetryCount: int)

  function Multiplier(m: real): real {
    if m <= 0.0 then 2.0 else m
  }

  function CapReal(max: real, x: real): real {
    if x > max then max else x
  }

  /** Conversion of a float duration to whole nanoseconds. */
  function Truncate(x: real): int {
    if x >= 0.0 then x.Floor else -((-x).Floor)
  }

  /** The exponential delay before truncation. */
  function ExactDelay(initial: int, max: int, m: real, retry: nat): real {
    CapReal(max as real, Times(initial as real, Power(Multiplier(m), retry)))
  }

  /** The delay before retry number `retry`; -1 when no retry is left.  `roll` is the random draw
      in [0, 1), which only the random strategy uses. */
  function Next(s: Strategy, retry: nat, roll: real): int {
    if retry >= s.maxRetryCount then -1
    else match s
      case Fixed(interval, _) => interval
      case Exponential(initial, max, _, m) => Truncate(ExactDelay(initial, max, m, retry))
      case RandomExponential(initial, max, _, m) => Truncate(Times(roll, ExactDelay(initial, max, m, retry)))
      case FibonacciBackoff(initial, max, _) =>
        var interval := WrapInt64(initial * Fibonacci(retry + 2));
        if interval > max then max else interval
  }

  /** Intervals are not negative and no Fibonacci product overflows at the given retry. */
  predicate Sane(s: Strategy, retry: nat) {
    match s
    case Fixed(interval, _) => interval >= 0
    case Exponential(initial, max, _, _) => initial >= 0 && max >= 0
    case RandomExponential(initial, max, _, _) => initial >= 0 && max >= 0
    case FibonacciBackoff(initial, max, _) => initial >= 0 && max >= 0 && initial * Fib(retry + 2) < TWO_TO_THE_63
  }

  /** Intervals are not negative and the last permitted Fibonacci product fits int64. */
  predicate SaneThroughout(s: Strategy) {
    s.maxRetryCount >= 1 ==> Sane(s, s.maxRetryCount - 1)
  }

  lemma WrapProduct(x: int, y: int)
    ensures WrapInt64(x * WrapInt64(y)) == WrapInt64(x * y)
  {
    hide WrapInt64;
    var q := WrapQuotient(y);
    assert x * (y - q * TWO_TO_THE_64) == x * y - (x * q) * TWO_TO_THE_64;
    WrapPeriodic(x * y, x * q);
  }

  /** Without product overflow the Fibonacci delay is the exact product, capped. */
  lemma FibonacciDelayExact(s: Strategy, retry: nat, roll: real)
    requires s.FibonacciBackoff? && Sane(s, retry) && retry < s.maxRetryCount
    ensures var exact := s.initial * Fib(retry + 2);
      Next(s, retry, roll) == if exact > s.maxInterval then s.maxInterval else exact
  {
    hide WrapInt64, Fib;
    WrapProduct(s.initial, Fib(retry + 2));
    WrapExact(s.initial * Fib(retry + 2));
    ProductMonotone(s.initial, s.initial, 0, Fib(retry + 2));
  }

  lemma FibonacciDelayBounds(s: Strategy, retry: nat, roll: real)
    requires s.FibonacciBackoff? && Sane(s, retry) && retry < s.maxRetryCount
    ensures 0 <= Next(s, retry, roll) <= s.maxInterval
    ensures Next(s, retry, roll) <= s.initial * Fib(retry + 2)
  {
    FibonacciDelayExact(s, retry, roll);
    hide Next, Fib;
    ProductMonotone(s.initial, s.initial, 0, Fib(retry + 2));
  }

  lemma ExactDelayNonNegative(initial: int, max: int, m: real, retry: nat)
    requires initial >= 0 && max >= 0
    ensures 0.0 <= ExactDelay(initial, max, m, retry) <= max as real
  {
    PowerNonNegative(Multiplier(m), retry);
    ProductNonNegative(initial as real, Power(Multiplier(m), retry));
  }

  lemma Shrinks(roll: real, x: real)
    requires 0.0 <= roll < 1.0 && x >= 0.0
    ensures 0.0 <= Times(roll, x) <= x
  {
    ProductNonNegative(roll, x);
    ProductNonNegative(1.0 - roll, x);
  }

  /** With sane intervals a delay is negative exactly when the retries are used up. */
  lemma NegativeMeansExhausted(s: Strategy, retry: nat, roll: real)
    requires SaneThroughout(s) && 0.0 <= roll < 1.0
    ensures Next(s, retry, roll) < 0 <==> retry >= s.maxRetryCount
  {
    if retry < s.maxRetryCount {
      SaneBelow(s, retry, s.maxRetryCount - 1);
      match s
      case Fixed(_, _) =>
      case Exponential(initial, max, _, m) => ExactDelayNonNegative(initial, max, m, retry);
      case RandomExponential(initial, max, _, m) =>
        ExactDelayNonNegative(initial, max, m, retry);
        Shrinks(roll, ExactDelay(initial, max, m, retry));
      case FibonacciBackoff(_, _, _) =>
        FibonacciDelayBounds(s, retry, roll);
    }
  }

  /** The delays at face value: the fixed one; the exponential one, which starts at the initial
      interval or the cap, less the fraction of a nanosecond; the same of a random part of it. */
  lemma DelaysAtFaceValue(s: Strategy, retry: nat, roll: real)
    requires Sane(s, retry) && retry < s.maxRetryCount && 0.0 <= roll < 1.0
    ensures s.Fixed? ==> Next(s, retry, roll) == s.interval
    ensures s.Exponential? ==>
              WholePart(Next(s, retry, roll), ExactDelay(s.initial, s.maxInterval, s.multiplier, retry))
    ensures s.RandomExponential? ==>
              WholePart(Next(s, retry, roll), roll * ExactDelay(s.initial, s.maxInterval, s.multiplier, retry))
    ensures s.Exponential? || s.RandomExponential? ==>
              ExactDelay(s.initial, s.maxInterval, s.multiplier, 0)
                == (if s.initial <= s.maxInterval then s.initial else s.maxInterval) as real
  {
    if s.Exponential? || s.RandomExponential? {
      ExactDelayNonNegative(s.initial, s.maxInterval, s.multiplier, retry);
      Shrinks(roll, ExactDelay(s.initial, s.maxInterval, s.multiplier, retry));
      Units(s.initial as real);
    }
  }

  ghost predicate WholePart(n: int, x: real) {
    n as real <= x < n as real + 1.0
  }

  /** Jitter only shortens: the random delay is between zero and the exponential one. */
  lemma JitterShortens(initial: int, max: int, count: int, m: real, retry: nat, roll: real)
    requires initial >= 0 && max >= 0 && 0.0 <= roll < 1.0 && retry < count
    ensures 0 <= Next(RandomExponential(initial, max, count, m), retry, roll)
              <= Next(Exponential(initial, max, count, m), retry, roll) <= max
  {
    ExactDelayNonNegative(initial, max, m, retry);
    Shrinks(roll, ExactDelay(initial, max, m, retry));
  }

  /** Over exact reals each exponential delay is the previous one times the multiplier, capped;
      delays never decrease. */
  lemma ExponentialRecurrence(initial: int, max: int, m: real, retry: nat)
    requires initial >= 0 && max >= 0 && Multiplier(m) >= 1.0
    ensures ExactDelay(initial, max, m, retry + 1)
              == CapReal(max as real, Times(Multiplier(m), ExactDelay(initial, max, m, retry)))
    ensures ExactDelay(initial, max, m, retry) <= ExactDelay(initial, max, m, retry + 1)
    ensures Multiplier(m) == if m > 0.0 then m else 2.0
  {
    var k := Multiplier(m);
    var x := Times(initial as real, Power(k, retry));
    ExactDelayNonNegative(initial, max, m, retry);
    PowerNonNegative(k, retry);
    ProductNonNegative(initial as real, Power(k, retry));
    Associates(initial as real, k, Power(k, retry));
    Grows(k, x);
    Grows(k, max as real);
  }

  lemma Grows(k: real, x: real)
    requires k >= 1.0 && x >= 0.0
    ensures Times(k, x) >= x
  {
    ProductNonNegative(k - 1.0, x);
  }

  function DelaySum(s: Strategy, k: nat): int {
    if k == 0 then 0 else DelaySum(s, k - 1) + Next(s, k - 1, 0.0)
  }

  lemma SaneBelow(s: Strategy, r: nat, retry: nat)
    requires Sane(s, retry) && r <= retry
    ensures Sane(s, r)
  {
    if s.FibonacciBackoff? {
      FibMonotone(r + 2, retry + 2);
      ProductMonotone(s.initial, s.initial, Fib(r + 2), Fib(retry + 2));
    }
  }

  /** Fibonacci delays never decrease and stay within the cap. */
  lemma FibonacciDelaysGrow(s: Strategy, retry: nat)
    requires s.FibonacciBackoff? && Sane(s, retry + 1) && retry + 1 < s.maxRetryCount
    ensures 0 <= Next(s, retry, 0.0) <= Next(s, retry + 1, 0.0) <= s.maxInterval
  {
    SaneBelow(s, retry, retry + 1);
    FibonacciDelayExact(s, retry, 0.0);
    FibonacciDelayExact(s, retry + 1, 0.0);
    FibMonotone(retry + 2, retry + 3);
    FibonacciDelayBounds(s, retry, 0.0);
    FibonacciDelayBounds(s, retry + 1, 0.0);
    hide Next, Fib, Sane;
    ProductMonotone(s.initial, s.initial, Fib(retry + 2), Fib(retry + 3));
  }

  /** The first `k` Fibonacci delays sum to at most initial * (Fib(k + 3) - 2). */
  lemma {:induction false} FibonacciDelaysSum(s: Strategy, k: nat)
    requires s.FibonacciBackoff? && s.initial >= 0 && s.maxInterval >= 0
    requires k > 0 ==> Sane(s, k - 1) && k <= s.maxRetryCount
    ensures DelaySum(s, k) <= s.initial * (Fib(k + 3) - 2)
  {
    FibStep(k + 3);
    if k == 0 {
      FibStep(2);
    } else {
      if k > 1 {
        SaneBelow(s, k - 2, k - 1);
      }
      FibonacciDelaysSum(s, k - 1);
      FibonacciDelayBounds(s, k - 1, 0.0);
      hide Next, Fib, Sane;
      SumProducts(s.initial, Fib(k + 2) - 2, Fib(k + 1));
    }
  }

  /** Below the cap they sum to exactly that. */
  lemma {:induction false} FibonacciDelaysSumExactly(s: Strategy, k: nat)
    requires s.FibonacciBackoff? && s.initial >= 0 && s.maxInterval >= 0
    requires k > 0 ==> Sane(s, k - 1) && k <= s.maxRetryCount && s.initial * Fib(k + 1) <= s.maxInterval
    ensures DelaySum(s, k) == s.initial * (Fib(k + 3) - 2)
  {
    FibStep(k + 3);
    if k == 0 {
      FibStep(2);
    } else {
      if k > 1 {
        SaneBelow(s, k - 2, k - 1);
        FibMonotone(k, k + 1);
      }
      FibonacciDelayExact(s, k - 1, 0.0);
      hide Next, Fib, Sane;
      ProductMonotone(s.initial, s.initial, if k > 1 then Fib(k) else 0, if k > 1 then Fib(k + 1) else 0);
      FibonacciDelaysSumExactly(s, k - 1);
      SumProducts(s.initial, Fib(k + 2) - 2, Fib(k + 1));
    }
  }

  /** And to at most `k` times the cap. */
  lemma {:induction false} FibonacciDelaysCapped(s: Strategy, k: nat)
    requires s.FibonacciBackoff? && s.initial >= 0 && s.maxInterval >= 0
    requires k > 0 ==> Sane(s, k - 1) && k <= s.maxRetryCount
    ensures 0 <= DelaySum(s, k) <= k * s.maxInterval
  {
    if k > 0 {
      if k > 1 {
        SaneBelow(s, k - 2, k - 1);
      }
      FibonacciDelaysCapped(s, k - 1);
      FibonacciDelayBounds(s, k - 1, 0.0);
      hide Next, Fib, Sane;
      CapStep(k, s.maxInterval, DelaySum(s, k - 1), Next(s, k - 1, 0.0));
    }
  }

  lemma CapStep(k: nat, cap: nat, sum: int, d: int)
    requires k >= 1 && 0 <= sum <= (k - 1) * cap && 0 <= d <= cap
    ensures 0 <= sum + d <= k * cap
  {
    assert (k - 1) * cap + cap == k * cap;
  }

  lemma FibStep(n: nat)
    requires n >= 2
    ensures Fib(n) == Fib(n - 1) + Fib(n - 2)
  {
  }

  lemma SumProducts(x: int, y: int, z: int)
    ensures x * y + x * z == x * (y + z)
  {
  }

  lemma FibAt55()
    ensures Fib(54) == 86267571272 && Fib(55) == 139583862445
  {
    FibAt52();
    FibStep(54);
    FibStep(55);
  }

  lemma {:induction false} FibGrowsAtMostTwofold(n: nat)
    requires n >= 1
    ensures Fib(n + 1) <= 2 * Fib(n)
  {
    FibMonotone(n - 1, n);
    FibStep(n + 1);
  }

  /** The first retry from `r` on whose product overflows. */
  lemma {:induction false} FirstOverflow(s: Strategy, r: nat, retry: nat) returns (first: nat)
    requires s.FibonacciBackoff? && Sane(s, r) && r <= retry && s.initial * Fib(retry + 2) >= TWO_TO_THE_63
    ensures r < first <= retry && Sane(s, first - 1) && !Sane(s, first)
    decreases retry - r
  {
    if Sane(s, r + 1) {
      first := FirstOverflow(s, r + 1, retry);
    } else {
      first := r + 1;
    }
  }

  /** The first overflowing product lies between 2^63 and 2^64, so it reads as negative. */
  lemma FirstOverflowIsNegative(s: Strategy, first: nat, roll: real)
    requires s.FibonacciBackoff? && s.maxInterval >= 0 && 0 < first < s.maxRetryCount
    requires Sane(s, first - 1) && !Sane(s, first)
    ensures Next(s, first, roll) < 0
  {
    var below, product := s.initial * Fib(first + 1), s.initial * Fib(first + 2);
    assert below < TWO_TO_THE_63 <= product;
    FibGrowsAtMostTwofold(first + 1);
    WrapProduct(s.initial, Fib(first + 2));
    hide Fib, WrapInt64;
    AtMostTwice(s.initial, Fib(first + 1), Fib(first + 2));
    WrapOnce(product);
  }

  lemma AtMostTwice(x: nat, y: nat, z: nat)
    requires z <= 2 * y
    ensures x * z <= 2 * (x * y)
  {
    ProductMonotone(x, x, z, 2 * y);
  }

  lemma WrapOnce(n: int)
    requires TWO_TO_THE_63 <= n < TWO_TO_THE_64
    ensures WrapInt64(n) == n - TWO_TO_THE_64 < 0
  {
  }

  /** When a Fibonacci strategy stops early: every permitted retry has a delay exactly when the
      product of the last one fits int64. */
  lemma FibonacciNeverStopsEarly(s: Strategy, roll: real)
    requires s.FibonacciBackoff? && 0 <= s.initial < TWO_TO_THE_63 && s.maxInterval >= 0 && s.maxRetryCount >= 1
    ensures (forall r: nat :: r < s.maxRetryCount ==> Next(s, r, roll) >= 0)
       <==> s.initial * Fib(s.maxRetryCount + 1) < TWO_TO_THE_63
  {
    var last: nat := s.maxRetryCount - 1;
    if s.initial * Fib(s.maxRetryCount + 1) < TWO_TO_THE_63 {
      forall r: nat | r < s.maxRetryCount
        ensures Next(s, r, roll) >= 0
      {
        SaneBelow(s, r, last);
        FibonacciDelayBounds(s, r, roll);
      }
    } else {
      assert Fib(2) == 1;
      assert Sane(s, 0);
      var first := FirstOverflow(s, 0, last);
      FirstOverflowIsNegative(s, first, roll);
    }
  }

  /** So an overflowing product can turn a retry into exhaustion: with 100 ms to start, a delay is
      negative before the retries are used up exactly when 54 or more are permitted. */
  lemma OverflowStopsRetries(max: int, count: int)
    requires max >= 0 && count >= 1
    ensures (exists r: nat :: r < count && Next(FibonacciBackoff(100_000_000, max, count), r, 0.0) < 0) <==> count >= 54
  {
    FibonacciNeverStopsEarly(FibonacciBackoff(100_000_000, max, count), 0.0);
    FibAt55();
    hide Next;
    if count >= 54 {
      FibMonotone(55, count + 1);
    } else {
      FibMonotone(count + 1, 54);
    }
  }

  // ------------------------------------------------------------------ the retry loop

  type Error = int

  /** The strategy's own exhaustion error. */
  const MAX_RETRIES_EXCEEDED: Error := 0

  datatype Attempt = Success(value: int) | Failure(err: Error)

  /** What a run of the loop meets: the i-th call's outcome, the user's retry predicate, whether the
      context wins the i-th wait, and the i-th random draw. */
  datatype Env = Env(fn: nat -> Attempt, retryOn: Error -> bool, cancelled: nat -> bool, roll: nat -> real)

  datatype Outcome = Done(value: int) | NotRetryable(err: Error) | Exhausted(last: Error) | Cancelled

  /** The loop ends at attempt `i`. */
  predicate Stops(s: Strategy, env: Env, i: nat) {
    match env.fn(i)
    case Success(_) => true
    case Failure(err) => !env.retryOn(err) || Next(s, i, env.roll(i)) < 0 || env.cancelled(i)
  }

  /** With what it ends there. */
  function OutcomeAt(s: Strategy, env: Env, i: nat): Outcome {
    match env.fn(i)
    case Success(v) => Done(v)
    case Failure(err) =>
      if !env.retryOn(err) then NotRetryable(err)
      else if Next(s, i, env.roll(i)) < 0 then Exhausted(err)
      else Cancelled
  }

  function MaxAttempts(s: Strategy): nat {
    (if s.maxRetryCount > 0 then s.maxRetryCount else 0) + 1
  }

  /** The first attempt from `i` on at which the loop ends. */
  function FirstStop(s: Strategy, env: Env, i: nat): (k: nat)
    requires i < MaxAttempts(s)
    ensures i <= k < MaxAttempts(s)
    ensures Stops(s, env, k) && forall j :: i <= j < k ==> !Stops(s, env, j)
    decreases MaxAttempts(s) - i
  {
    if Stops(s, env, i) then i else FirstStop(s, env, i + 1)
  }

  function UpTo(k: nat): (s: seq<nat>)
    ensures |s| == k && forall i :: 0 <= i < k ==> s[i] == i
  {
    seq(k, i => i)
  }

  /** Nanoseconds slept before attempt `k`. */
  function Slept(s: Strategy, env: Env, k: nat): int {
    if k == 0 then 0 else Slept(s, env, k - 1) + Next(s, k - 1, env.roll(k - 1))
  }

  /** The time slept is the sum of the delays so far: without a random draw it is DelaySum, for which
      the Fibonacci bounds hold, and at a fixed interval that many intervals. */
  lemma {:induction false} SleptIsDelays(s: Strategy, env: Env, k: nat)
    requires !s.RandomExponential?
    ensures Slept(s, env, k) == DelaySum(s, k)
    ensures s.Fixed? && k <= s.maxRetryCount ==> Slept(s, env, k) == k * s.interval
  {
    if k > 0 {
      SleptIsDelays(s, env, k - 1);
      if s.Fixed? && k <= s.maxRetryCount {
        SumProducts(s.interval, k - 1, 1);
      }
    }
  }

  lemma FirstStopIs(s: Strategy, env: Env, i: nat)
    requires i < MaxAttempts(s) && Stops(s, env, i) && forall j :: 0 <= j < i ==> !Stops(s, env, j)
    ensures FirstStop(s, env, 0) == i
  {
  }

  /** At the last permitted attempt the loop stops. */
  lemma LastAttemptStops(s: Strategy, env: Env, i: nat)
    requires i + 1 >= MaxAttempts(s)
    ensures Next(s, i, env.roll(i)) < 0
  {
  }

  /** Attempt `i` fails, is to be retried, has a delay, and its wait is not cancelled. */
  ghost predicate Retries(s: Strategy, env: Env, i: nat) {
    && env.fn(i).Failure? && env.retryOn(env.fn(i).err)
    && Next(s, i, env.roll(i)) >= 0 && !env.cancelled(i)
  }

  /** What the loop returns if attempt `last` is its last. */
  ghost predicate Returns(s: Strategy, env: Env, last: nat, outcome: Outcome) {
    var call, delay := env.fn(last), Next(s, last, env.roll(last));
    && (forall v :: outcome == Done(v) <==> call == Success(v))
    && (forall e :: outcome == NotRetryable(e) <==> call == Failure(e) && !env.retryOn(e))
    && (forall e :: outcome == Exhausted(e) <==> call == Failure(e) && env.retryOn(e) && delay < 0)
    && (outcome.Cancelled? <==> call.Failure? && env.retryOn(call.err) && delay >= 0)
    && (outcome.Cancelled? ==> env.cancelled(last))
  }

  /** The attempt at which the loop ends is the first that is not retried, and decides the outcome. */
  lemma StopsMeans(s: Strategy, env: Env, i: nat)
    ensures Stops(s, env, i) <==> !Retries(s, env, i)
    ensures Stops(s, env, i) ==> Returns(s, env, i, OutcomeAt(s, env, i))
  {
    hide Next;
  }

  /** The loop calls until the first attempt at which it must stop, at most maxRetryCount + 1 times,
      returns that attempt's outcome, and reports each attempt that was to be retried. */
  method ExecuteRetries(s: Strategy, env: Env) returns (outcome: Outcome, calls: nat, onRetry: seq<nat>, slept: int)
    ensures 1 <= calls <= (if s.maxRetryCount > 0 then s.maxRetryCount else 0) + 1
    ensures calls - 1 == FirstStop(s, env, 0)
    ensures outcome == OutcomeAt(s, env, calls - 1)
    ensures Returns(s, env, calls - 1, outcome)
    ensures forall j :: 0 <= j < calls - 1 ==> Retries(s, env, j)
    ensures onRetry == UpTo(if outcome.Cancelled? then calls else calls - 1)
    ensures slept == Slept(s, env, calls - 1)
  {
    var i := 0;
    onRetry, slept := [], 0;
    while true
      invariant 0 <= i < MaxAttempts(s)
      invariant forall j :: 0 <= j < i ==> !Stops(s, env, j)
      invariant onRetry == UpTo(i) && slept == Slept(s, env, i)
      decreases MaxAttempts(s) - i
    {
      hide Next, FirstStop;
      forall j | 0 <= j <= i
        ensures Stops(s, env, j) <==> !Retries(s, env, j)
        ensures Stops(s, env, j) ==> Returns(s, env, j, OutcomeAt(s, env, j))
      {
        StopsMeans(s, env, j);
      }
      if Stops(s, env, i) {
        FirstStopIs(s, env, i);
      }
      if i + 1 == MaxAttempts(s) {
        LastAttemptStops(s, env, i);
      }
      match env.fn(i) {
        case Success(v) => return Done(v), i + 1, onRetry, slept;
        case Failure(err) =>
          if !env.retryOn(err) {
            return NotRetryable(err), i + 1, onRetry, slept;
          }
          var backoff := Next(s, i, env.roll(i));
          if backoff < 0 {
            return Exhausted(err), i + 1, onRetry, slept;
          }
          onRetry := onRetry + [i];
          if env.cancelled(i) {
            return Cancelled, i + 1, onRetry, slept;
          }
          slept := slept + backoff;
      }
      i := i + 1;
    }
  }

  /** Success is returned exactly when some permitted attempt succeeds before anything else ends
      the loop, and then it is the first success. */
  lemma FirstSuccessReturned(s: Strategy, env: Env)
    ensures var k := FirstStop(s, env, 0);
      && (OutcomeAt(s, env, k).Done? <==> env.fn(k).Success?)
      && (forall j :: 0 <= j < k ==> env.fn(j).Failure?)
  {
    var k := FirstStop(s, env, 0);
    forall j | 0 <= j < k
      ensures env.fn(j).Failure?
    {
      assert !Stops(s, env, j);
    }
  }

  /** The loop itself reports exhaustion exactly when every permitted attempt failed retryably and
      no wait was cancelled. */
  lemma ExhaustedExactly(s: Strategy, env: Env)
    requires SaneThroughout(s) && forall i: nat :: i < MaxAttempts(s) ==> 0.0 <= env.roll(i) < 1.0
    ensures var n := MaxAttempts(s);
      OutcomeAt(s, env, FirstStop(s, env, 0)).Exhausted? <==>
        && (forall i :: 0 <= i < n ==> env.fn(i).Failure? && env.retryOn(env.fn(i).err))
        && (forall i :: 0 <= i < n - 1 ==> !env.cancelled(i))
  {
    var n, k := MaxAttempts(s), FirstStop(s, env, 0);
    NegativeMeansExhausted(s, k, env.roll(k));
    forall j | 0 <= j < k
      ensures env.fn(j).Failure? && env.retryOn(env.fn(j).err) && !env.cancelled(j)
    {
      assert !Stops(s, env, j);
    }
    if k < n - 1 {
      assert k < s.maxRetryCount;
    }
  }

  // ------------------------------------------------------------------ the tracker

  /** What the tracker books for one Execute, whatever happened in it. */
  function BookedAttempts(s: Strategy): nat {
    WrapUint64(s.maxRetryCount + 1)
  }

  /** The booked number bounds the calls made from above for every limit but -1, where it is zero. */
  lemma BookingBounds(s: Strategy, env: Env)
    requires IsInt64(s.maxRetryCount)
    ensures FirstStop(s, env, 0) + 1 <= BookedAttempts(s) <==> s.maxRetryCount != -1
  {
  }

  lemma WrapUint64Adds(x: nat, y: nat)
    ensures WrapUint64(WrapUint64(x) + y) == WrapUint64(x + y)
  {
  }

  class RetryTracker {
    const strategy: Strategy
    var totalAttempts: nat
    var totalSuccess: nat
    var totalRetries: nat
    /** Calls really made, and the unwrapped sum of the booked attempts. */
    ghost var invocations: nat
    ghost var booked: nat

    ghost predicate Valid() reads this {
      && IsInt64(strategy.maxRetryCount)
      && totalAttempts == WrapUint64(booked)
      && (strategy.maxRetryCount != -1 ==> invocations <= booked)
    }

    constructor (s: Strategy)
      requires IsInt64(s.maxRetryCount)
      ensures Valid() && strategy == s && invocations == 0 && totalAttempts == totalSuccess == totalRetries == 0
    {
      strategy := s;
      totalAttempts, totalSuccess, totalRetries, invocations, booked := 0, 0, 0, 0, 0;
    }

    method Execute(env: Env) returns (outcome: Outcome)
      requires Valid()
      modifies this
      ensures Valid()
      ensures outcome == OutcomeAt(strategy, env, FirstStop(strategy, env, 0))
      ensures invocations == old(invocations) + FirstStop(strategy, env, 0) + 1
      ensures var last: nat := invocations - old(invocations) - 1;
        Returns(strategy, env, last, outcome) && forall j :: 0 <= j < last ==> Retries(strategy, env, j)
      ensures totalAttempts == WrapUint64(old(totalAttempts) + WrapUint64(strategy.maxRetryCount + 1))
      ensures booked == old(booked) + BookedAttempts(strategy)
      ensures totalSuccess == if outcome.Done? then WrapUint64(old(totalSuccess) + 1) else old(totalSuccess)
      ensures var booking := WrapUint64(strategy.maxRetryCount + 1);
        totalRetries == if (outcome.Exhausted? || outcome == NotRetryable(MAX_RETRIES_EXCEEDED)) && booking > 1
                        then WrapUint64(old(totalRetries) + booking - 1) else old(totalRetries)
    {
      hide FirstStop, OutcomeAt, WrapUint64;
      var calls: nat;
      var onRetry, slept;
      outcome, calls, onRetry, slept := ExecuteRetries(strategy, env);
      BookingBounds(strategy, env);
      var attempts := WrapUint64(strategy.maxRetryCount + 1);
      WrapUint64Adds(booked, attempts);
      totalAttempts := WrapUint64(totalAttempts + attempts);
      if outcome.Done? {
        totalSuccess := WrapUint64(totalSuccess + 1);
      } else if IsExhaustion(outcome) {
        if attempts > 1 {
          totalRetries := WrapUint64(totalRetries + attempts - 1);
        }
      }
      invocations, booked := invocations + calls, booked + attempts;
    }
  }

  predicate IsExhaustion(outcome: Outcome) {
    outcome.Exhausted? || outcome == NotRetryable(MAX_RETRIES_EXCEEDED)
  }
}
