/** The circuit breaker of internal/breaker/breaker.go.

    `Core` is the breaker as a reader thinks of it: a phase and the log of the results recorded
    since it was last cleared.  `CircuitBreaker` is the object of the source: wrapping counters and
    a ring buffer, updated in place; every method is proved to do to the log what `Core` says.

    Instants and durations are whole nanoseconds.  Each method takes the clock readings it makes. */
module Breakers {
  import opened Naturals
  import opened Widths

  datatype Option<T> = None | Some(value: T)

  datatype Phase = Closed | Open | HalfOpen | Disabled | ForcedOpen

  /** Error values are opaque, but for the breaker's own three. */
  type Error = int

  const OPEN_STATE_ERROR: Error := 1
  const TOO_MANY_REQUESTS_ERROR: Error := 2
  const FORCED_OPEN_ERROR: Error := 3

  predicate IsRejection(err: Option<Error>) {
    err.Some? && err.value in {OPEN_STATE_ERROR, TOO_MANY_REQUESTS_ERROR, FORCED_OPEN_ERROR}
  }

  datatype Config = Config(
    maxRequests: nat,
    timeout: int,
    failureRateThreshold: nat,
    slowCallRateThreshold: nat,
    slowCallDuration: int,
    minimumNumberOfCalls: nat,
    slidingWindowSize: nat,
    countWindow: bool,
    isSuccessful: Option<Option<Error> -> bool>)

  /** A configuration after New has filled in its defaults, within the source's widths. */
  ghost predicate Normal(c: Config) {
    && 1 <= c.maxRequests < TWO_TO_THE_32
    && c.timeout != 0
    && 1 <= c.failureRateThreshold < 256
    && 1 <= c.slowCallRateThreshold < 256
    && 1 <= c.minimumNumberOfCalls < TWO_TO_THE_32
    && 1 <= c.slidingWindowSize < TWO_TO_THE_32
  }

  function OrDefault(value: int, default: int): int {
    if value == 0 then default else value
  }

  function Normalize(c: Config): Config {
    c.(maxRequests := if c.maxRequests == 0 then 1 else c.maxRequests,
       timeout := OrDefault(c.timeout, 60_000_000_000),
       failureRateThreshold := if c.failureRateThreshold == 0 then 50 else c.failureRateThreshold,
       slowCallRateThreshold := if c.slowCallRateThreshold == 0 then 100 else c.slowCallRateThreshold,
       minimumNumberOfCalls := if c.minimumNumberOfCalls == 0 then 10 else c.minimumNumberOfCalls,
       slidingWindowSize := if c.slidingWindowSize == 0 then 100 else c.slidingWindowSize)
  }

  /** What an unset configuration means, and that a set one is kept. */
  lemma DefaultsFilled(c: Config)
    ensures c.maxRequests == c.failureRateThreshold == c.slowCallRateThreshold == c.minimumNumberOfCalls
              == c.slidingWindowSize == 0 && c.timeout == 0 ==>
              Normalize(c) == Config(1, 60 * 1_000_000_000, 50, 100, c.slowCallDuration, 10, 100,
                                     c.countWindow, c.isSuccessful)
    ensures Normal(c) ==> Normalize(c) == c
    ensures Normalize(Normalize(c)) == Normalize(c)
  {
  }

  datatype CallResult = CallResult(success: bool, slow: bool, time: int)

  function Failures(log: seq<CallResult>): nat {
    if log == [] then 0 else Failures(log[..|log| - 1]) + (if log[|log| - 1].success then 0 else 1)
  }

  function Successes(log: seq<CallResult>): nat {
    if log == [] then 0 else Successes(log[..|log| - 1]) + (if log[|log| - 1].success then 1 else 0)
  }

  function SlowCalls(log: seq<CallResult>): nat {
    if log == [] then 0 else SlowCalls(log[..|log| - 1]) + (if log[|log| - 1].slow then 1 else 0)
  }

  lemma AppendCounts(log: seq<CallResult>, r: CallResult)
    ensures Failures(log + [r]) == Failures(log) + (if r.success then 0 else 1)
    ensures Successes(log + [r]) == Successes(log) + (if r.success then 1 else 0)
    ensures SlowCalls(log + [r]) == SlowCalls(log) + (if r.slow then 1 else 0)
  {
    assert (log + [r])[..|log|] == log;
  }

  lemma {:induction false} CountsAddUp(log: seq<CallResult>)
    ensures Successes(log) + Failures(log) == |log|
    ensures SlowCalls(log) <= |log|
  {
    if log != [] {
      CountsAddUp(log[..|log| - 1]);
    }
  }

  // ------------------------------------------------------------------ thresholds

  /** part out of whole reaches `percent` per cent. */
  predicate RateReaches(part: nat, whole: nat, percent: nat) {
    100 * part >= percent * whole
  }

  /** The same comparison as the code makes it, by dividing first. */
  lemma RateByDivision(part: nat, whole: nat, percent: nat)
    requires whole > 0
    ensures part as real / whole as real * 100.0 >= percent as real <==> RateReaches(part, whole, percent)
  {
    var w := whole as real;
    var q := part as real / w;
    assert q * w == part as real;
    if q * 100.0 >= percent as real {
      assert q * 100.0 * w >= percent as real * w;
      assert 100.0 * part as real >= percent as real * w;
      assert (100 * part) as real >= (percent * whole) as real;
    } else {
      assert q * 100.0 * w < percent as real * w;
      assert (100 * part) as real < (percent * whole) as real;
    }
  }

  /** The trip decision on uint32 counters that saw every result of the log. */
  predicate Trips(c: Config, log: seq<CallResult>) {
    var calls := Wrap32(|log|);
    && calls >= c.minimumNumberOfCalls
    && ( (c.slowCallDuration > 0 && RateReaches(Wrap32(SlowCalls(log)), calls, c.slowCallRateThreshold))
      || RateReaches(Wrap32(Failures(log)), calls, c.failureRateThreshold))
  }

  /** The trip decision the documentation describes, over the exact numbers of the given calls. */
  predicate RatesTrip(c: Config, calls: seq<CallResult>) {
    && |calls| >= c.minimumNumberOfCalls
    && ( (c.slowCallDuration > 0 && RateReaches(SlowCalls(calls), |calls|, c.slowCallRateThreshold))
      || RateReaches(Failures(calls), |calls|, c.failureRateThreshold))
  }

  /** Below 2^32 calls since the last clear the wrapping counters decide on the exact rates. */
  lemma TripsExactly(c: Config, log: seq<CallResult>)
    requires |log| < TWO_TO_THE_32
    ensures Trips(c, log) <==> RatesTrip(c, log)
  {
    hide RateReaches;
    CountsAddUp(log);
  }

  /** The most a uint32 counter can show reaches `percent` per cent of the least number of calls
      that counts. */
  predicate WithinReach(c: Config, percent: nat) {
    RateReaches(TWO_TO_THE_32 - 1, c.minimumNumberOfCalls, percent)
  }

  /** Out of its reach no counter values reach a threshold; and such a threshold is above 100. */
  lemma OutOfReach(c: Config, part: nat, calls: nat, percent: nat)
    requires Normal(c) && !WithinReach(c, percent)
    ensures calls >= c.minimumNumberOfCalls ==> !RateReaches(Wrap32(part), calls, percent)
    ensures percent > 100
  {
    var min := c.minimumNumberOfCalls;
    assert percent * min > 100 * (TWO_TO_THE_32 - 1);
    if calls >= min {
      ProductMonotone(percent, percent, min, calls);
    }
    if percent <= 100 {
      ProductMonotone(percent, 100, min, min);
      assert false;
    }
  }

  // ------------------------------------------------------------------ the breaker as a value

  datatype Totals = Totals(successes: nat, failures: nat, slowCalls: nat, calls: nat, transitions: nat)

  /** `log`: results recorded since the last clear.  `probes`: admissions of this half-open
      episode, of `allowed`. */
  datatype Core = Core(phase: Phase, log: seq<CallResult>, probes: nat, allowed: nat, openSince: int, totals: Totals)

  datatype Verdict = Admit | ErrOpenState | ErrTooManyRequests | ErrForcedOpen

  function ErrorOf(v: Verdict): Option<Error> {
    match v
    case Admit => None
    case ErrOpenState => Some(OPEN_STATE_ERROR)
    case ErrTooManyRequests => Some(TOO_MANY_REQUESTS_ERROR)
    case ErrForcedOpen => Some(FORCED_OPEN_ERROR)
  }

  /** The errors that read as rejections are exactly those a refusal returns. */
  lemma RejectionsAreRefusals(err: Option<Error>)
    ensures IsRejection(err) <==> exists v :: v != Admit && err == ErrorOf(v)
    ensures forall v, w :: ErrorOf(v) == ErrorOf(w) ==> v == w
    ensures ErrorOf(Admit) == None
  {
    if IsRejection(err) {
      var v := if err.value == OPEN_STATE_ERROR then ErrOpenState
               else if err.value == TOO_MANY_REQUESTS_ERROR then ErrTooManyRequests else ErrForcedOpen;
      assert v != Admit && err == ErrorOf(v);
    }
  }

  const NO_CALLS := Totals(0, 0, 0, 0, 0)

  function Initial(openSince: int): Core {
    Core(Closed, [], 0, 0, openSince, NO_CALLS)
  }

  /** The lazy step from Open to HalfOpen that every locked operation starts with. */
  function Lapse(c: Config, s: Core, now: int): Core {
    if s.phase == Open && now - s.openSince >= c.timeout
    then s.(phase := HalfOpen, log := [], probes := 0, allowed := c.maxRequests)
    else s
  }

  function Judge(s: Core): Verdict {
    match s.phase
    case Closed => Admit
    case Disabled => Admit
    case HalfOpen => if s.probes >= s.allowed then ErrTooManyRequests else Admit
    case Open => ErrOpenState
    case ForcedOpen => ErrForcedOpen
  }

  function Before(c: Config, s: Core, now: int): Core {
    var l := Lapse(c, s, now);
    if l.phase == HalfOpen && Judge(l) == Admit then l.(probes := l.probes + 1) else l
  }

  /** A counted transition: it clears the window and, into Open, restarts the timeout. */
  function Move(c: Config, s: Core, phase: Phase, at: int): Core {
    var cleared := s.(phase := phase, log := [], totals := s.totals.(transitions := s.totals.transitions + 1));
    match phase
    case Open => cleared.(openSince := at)
    case HalfOpen => cleared.(allowed := c.maxRequests, probes := 0)
    case _ => cleared
  }

  /** Where a breaker goes on a result that reached it in its current phase. */
  function Settle(c: Config, s: Core, r: CallResult, tripAt: int): Core {
    var recorded := s.(log := s.log + [r]);
    match s.phase
    case Closed => if Trips(c, recorded.log) then Move(c, recorded, Open, tripAt) else recorded
    case HalfOpen =>
      if !r.success then Move(c, recorded, Open, tripAt)
      else if |recorded.log| >= s.allowed then Move(c, recorded, Closed, tripAt)
      else recorded
    case _ => s
  }

  function CountResult(t: Totals, r: CallResult): Totals {
    t.(successes := t.successes + (if r.success then 1 else 0),
       failures := t.failures + (if r.success then 0 else 1),
       slowCalls := t.slowCalls + (if r.slow then 1 else 0),
       calls := t.calls + 1)
  }

  function After(c: Config, s: Core, r: CallResult, now: int, tripAt: int): Core {
    Settle(c, Lapse(c, s.(totals := CountResult(s.totals, r)), now), r, tripAt)
  }

  function ResetCore(s: Core): Core {
    s.(phase := Closed, log := [], probes := 0)
  }

  function ForceOpenCore(s: Core): Core {
    s.(phase := ForcedOpen)
  }

  function Failed(c: Config, err: Option<Error>): bool {
    match c.isSuccessful
    case None => err.Some?
    case Some(f) => !f(err)
  }

  function ResultOf(c: Config, err: Option<Error>, duration: int, stamp: int): CallResult {
    CallResult(!Failed(c, err), c.slowCallDuration > 0 && duration > c.slowCallDuration, stamp)
  }

  /** `r` is the result of a call that returned `err` within `elapsed`. */
  ghost predicate Measures(c: Config, r: CallResult, err: Option<Error>, elapsed: int) {
    exists duration :: 0 <= duration <= elapsed && r == ResultOf(c, err, duration, r.time)
  }

  /** `r` is the result of some call that took no longer than `elapsed`. */
  ghost predicate Measured(c: Config, r: CallResult, elapsed: int) {
    exists err :: Measures(c, r, err, elapsed)
  }

  /** Some call counts as failed; some counts as successful. */
  ghost predicate CanFail(c: Config) {
    exists err :: Failed(c, err)
  }

  ghost predicate CanSucceed(c: Config) {
    exists err :: !Failed(c, err)
  }

  /** The configuration gives some call this outcome. */
  ghost predicate Producible(c: Config, r: CallResult) {
    && (if r.success then CanSucceed(c) else CanFail(c))
    && (r.slow ==> c.slowCallDuration > 0)
  }

  /** A call that is to be slow must take longer than the limit. */
  function LeastDuration(c: Config, r: CallResult): nat {
    if r.slow && c.slowCallDuration > 0 then c.slowCallDuration + 1 else 0
  }

  /** The outcomes that calls can have. */
  lemma MeasuredExactly(c: Config, r: CallResult, elapsed: int)
    ensures Measured(c, r, elapsed) <==> Producible(c, r) && elapsed >= LeastDuration(c, r)
  {
    if Producible(c, r) && elapsed >= LeastDuration(c, r) {
      var err :| r.success == !Failed(c, err);
      assert r == ResultOf(c, err, LeastDuration(c, r), r.time);
      assert Measures(c, r, err, elapsed);
    }
  }

  lemma SomeOutcome(c: Config)
    ensures CanFail(c) || CanSucceed(c)
  {
    assert Failed(c, None) || !Failed(c, None);
  }

  /** What holds of every breaker that has only been driven through its operations. */
  ghost predicate Sound(c: Config, s: Core) {
    && s.phase != Disabled
    && (s.phase == Open ==> s.log == [])
    && (s.phase == HalfOpen ==> Failures(s.log) == 0 && |s.log| < s.allowed == c.maxRequests && s.probes <= s.allowed)
    && (s.phase == Closed ==> !Trips(c, s.log))
    && s.totals.successes + s.totals.failures == s.totals.calls
    && s.totals.slowCalls <= s.totals.calls
  }

  lemma InitialSound(c: Config, openSince: int)
    requires Normal(c)
    ensures Sound(c, Initial(openSince))
  {
  }

  lemma LapseSound(c: Config, s: Core, now: int)
    requires Normal(c) && Sound(c, s)
    ensures Sound(c, Lapse(c, s, now))
    ensures Lapse(c, s, now).phase == Open ==> now - s.openSince < c.timeout
  {
  }

  lemma BeforeSound(c: Config, s: Core, now: int)
    requires Normal(c) && Sound(c, s)
    ensures Sound(c, Before(c, s, now))
  {
  }

  lemma SettleSound(c: Config, s: Core, r: CallResult, tripAt: int)
    requires Normal(c) && Sound(c, s)
    ensures Sound(c, Settle(c, s, r, tripAt))
  {
    AppendCounts(s.log, r);
    EmptyDoesNotTrip(c);
    hide Trips, Failures, Successes, SlowCalls, Normal;
  }

  /** Lifetime totals have no part in the breaker's decisions. */
  lemma CountingSound(c: Config, s: Core, r: CallResult)
    requires Sound(c, s)
    ensures Sound(c, s.(totals := CountResult(s.totals, r)))
  {
  }

  lemma SettleElsewhere(c: Config, s: Core, r: CallResult, tripAt: int)
    requires s.phase != Closed && s.phase != HalfOpen
    ensures Settle(c, s, r, tripAt) == s
  {
  }

  lemma AfterSound(c: Config, s: Core, r: CallResult, now: int, tripAt: int)
    requires Normal(c) && Sound(c, s)
    ensures Sound(c, After(c, s, r, now, tripAt))
  {
    var counted := s.(totals := CountResult(s.totals, r));
    CountingSound(c, s, r);
    LapseSound(c, counted, now);
    SettleSound(c, Lapse(c, counted, now), r, tripAt);
  }

  lemma EmptyDoesNotTrip(c: Config)
    requires Normal(c)
    ensures !Trips(c, [])
  {
  }

  /** A finished call joins the lifetime totals under its own outcome, whatever else happens. */
  lemma AfterCounts(c: Config, s: Core, r: CallResult, now: int, tripAt: int)
    ensures var t := After(c, s, r, now, tripAt).totals;
      && t.successes == s.totals.successes + (if r.success then 1 else 0)
      && t.failures == s.totals.failures + (if r.success then 0 else 1)
      && t.slowCalls == s.totals.slowCalls + (if r.slow then 1 else 0)
      && t.calls == s.totals.calls + 1
  {
    hide Trips;
  }

  /** No call forces a breaker open or lets go of one that is. */
  lemma ForcedKept(c: Config, s: Core, r: CallResult, now: int, tripAt: int)
    ensures Before(c, s, now).phase == ForcedOpen <==> s.phase == ForcedOpen
    ensures After(c, s, r, now, tripAt).phase == ForcedOpen <==> s.phase == ForcedOpen
  {
    hide Trips;
  }

  lemma ResetSound(c: Config, s: Core)
    requires Normal(c) && Sound(c, s)
    ensures Sound(c, ResetCore(s)) && Sound(c, ForceOpenCore(s))
  {
    EmptyDoesNotTrip(c);
  }

  // ------------------------------------------------------------------ the ring buffer

  /** The buffer read from its oldest entry. */
  function Rotated(ring: seq<CallResult>, index: nat, full: bool): seq<CallResult>
    requires index <= |ring|
  {
    if full then ring[index..] + ring[..index] else ring[..index]
  }

  function LastOf(log: seq<CallResult>, window: nat): seq<CallResult> {
    if |log| <= window then log else log[|log| - window..]
  }

  /** Writing at the index and stepping it round appends to the window. */
  lemma RingStep(ring: seq<CallResult>, index: nat, full: bool, log: seq<CallResult>, r: CallResult)
    requires |ring| > 0 && index == |log| % |ring| && full == (|log| >= |ring|)
    requires Rotated(ring, index, full) == LastOf(log, |ring|)
    ensures var next := (index + 1) % |ring|;
      && next == |log + [r]| % |ring|
      && (full || next == 0) == (|log + [r]| >= |ring|)
      && Rotated(ring[index := r], next, full || next == 0) == LastOf(log + [r], |ring|)
  {
    var w := |ring|;
    ModStep(|log|, w);
    SmallMod(|log|, w);
    SmallMod(|log| + 1, w);
    if full {
      RotateFull(ring, index, log, r);
    } else {
      RotateFilling(ring, log, r);
    }
  }

  function StepRound(index: nat, w: nat): nat {
    if index + 1 == w then 0 else index + 1
  }

  lemma RotateFilling(ring: seq<CallResult>, log: seq<CallResult>, r: CallResult)
    requires |log| < |ring| && ring[..|log|] == log
    ensures var next := StepRound(|log|, |ring|);
      Rotated(ring[|log| := r], next, next == 0) == LastOf(log + [r], |ring|)
  {
    var after := ring[|log| := r];
    assert after[..|log| + 1] == ring[..|log|] + [r];
    if |log| + 1 == |ring| {
      assert after[0..] + after[..0] == after == after[..|log| + 1];
    }
  }

  lemma RotateFull(ring: seq<CallResult>, index: nat, log: seq<CallResult>, r: CallResult)
    requires index < |ring| <= |log|
    requires ring[index..] + ring[..index] == LastOf(log, |ring|)
    ensures Rotated(ring[index := r], StepRound(index, |ring|), true) == LastOf(log + [r], |ring|)
  {
    var w, next := |ring|, StepRound(index, |ring|);
    var after := ring[index := r];
    assert LastOf(log, w)[1..] + [r] == LastOf(log + [r], w);
    assert (ring[index..] + ring[..index])[1..] == ring[index + 1..] + ring[..index];
    assert ring[index + 1..] + ring[..index] + [r] == after[index + 1..] + after[..index + 1];
    if next == 0 {
      assert after[index + 1..] + after[..index + 1] == after == after[0..] + after[..0];
    }
  }

  lemma ModStep(n: nat, w: nat)
    requires w > 0
    ensures (n + 1) % w == (n % w + 1) % w
    ensures (n % w + 1) % w == if n % w + 1 == w then 0 else n % w + 1
  {
    var q := n / w;
    SmallMod(n % w + 1, w);
    if n % w + 1 == w {
      Distribute(q, w);
      DivisionUnique(n + 1, w, q + 1, 0);
    } else {
      DivisionUnique(n + 1, w, q, n % w + 1);
    }
  }

  lemma Distribute(q: int, w: int)
    ensures (q + 1) * w == q * w + w
  {
  }

  lemma MulGap(p: int, q: int, w: nat)
    requires p > q
    ensures p * w >= q * w + w
  {
    var gap: nat := p - q - 1;
    assert gap * w >= 0;
    assert gap * w == p * w - q * w - w;
  }

  lemma DivisionUnique(n: nat, w: nat, q: nat, rest: nat)
    requires rest < w && n == q * w + rest
    ensures n % w == rest
  {
    var p := n / w;
    assert n == p * w + n % w && 0 <= n % w < w;
    if p > q {
      MulGap(p, q, w);
    } else if p < q {
      MulGap(q, p, w);
    }
  }

  lemma SmallMod(n: nat, w: nat)
    requires 0 < w
    ensures n < w ==> n % w == n
    ensures n == w ==> n % w == 0
  {
  }
}
