/** Every run of the circuit breaker.

    A step is one critical section: the two halves of Execute, a State or GetMetrics call, Reset or
    ForceOpen.  Any number of calls may be in flight between their two halves and may finish in any
    order and in any later phase.  The clock never runs backwards. */
module BreakerRuns {
  import opened Breakers

  datatype Event =
    | Begin(now: int)
    | Finish(result: CallResult, began: int, now: int, tripAt: int)
    | Observe(now: int)
    | Reset
    | ForceOpen

  /** `inFlight`: when the calls between their two halves were let through.  `clock` is the latest
      reading any step made. */
  datatype Sys = Sys(core: Core, inFlight: multiset<int>, clock: int)

  /** A call that finishes was in flight, and its result is one the configuration can give a call of
      no longer than that. */
  ghost predicate Enabled(c: Config, s: Sys, e: Event) {
    match e
    case Begin(now) => s.clock <= now
    case Finish(r, began, now, tripAt) =>
      began in s.inFlight && s.clock <= now <= r.time <= tripAt && Measured(c, r, now - began)
    case Observe(now) => s.clock <= now
    case Reset => true
    case ForceOpen => true
  }

  predicate Admits(c: Config, s: Sys, e: Event) {
    e.Begin? && Judge(Lapse(c, s.core, e.now)) == Admit
  }

  function InFlightAfter(c: Config, s: Sys, e: Event): multiset<int> {
    if Admits(c, s, e) then s.inFlight + multiset{e.now}
    else if e.Finish? then s.inFlight - multiset{e.began}
    else s.inFlight
  }

  function Next(c: Config, s: Sys, e: Event): Sys {
    var inFlight := InFlightAfter(c, s, e);
    match e
    case Begin(now) => Sys(Before(c, s.core, now), inFlight, now)
    case Finish(r, _, now, tripAt) => Sys(After(c, s.core, r, now, tripAt), inFlight, tripAt)
    case Observe(now) => Sys(Lapse(c, s.core, now), inFlight, now)
    case Reset => s.(core := ResetCore(s.core))
    case ForceOpen => s.(core := ForceOpenCore(s.core))
  }

  ghost predicate Legal(c: Config, s: Sys, es: seq<Event>)
    decreases |es|
  {
    es != [] ==> Enabled(c, s, es[0]) && Legal(c, Next(c, s, es[0]), es[1..])
  }

  function Run(c: Config, s: Sys, es: seq<Event>): Sys
    decreases |es|
  {
    if es == [] then s else Run(c, Next(c, s, es[0]), es[1..])
  }

  /** Calls let through by a run. */
  function Admissions(c: Config, s: Sys, es: seq<Event>): nat
    decreases |es|
  {
    if es == [] then 0
    else (if Admits(c, s, es[0]) then 1 else 0) + Admissions(c, Next(c, s, es[0]), es[1..])
  }

  /** Calls finished by a run. */
  function Completions(es: seq<Event>): nat {
    if es == [] then 0 else (if es[0].Finish? then 1 else 0) + Completions(es[1..])
  }

  ghost predicate NeverCloses(c: Config, s: Sys, es: seq<Event>)
    decreases |es|
  {
    && s.core.phase != Closed
    && (es != [] ==> NeverCloses(c, Next(c, s, es[0]), es[1..]))
  }

  /** What every reachable state satisfies: the breaker is sound and its open period is in the
      past; in HalfOpen the timeout has passed. */
  ghost predicate Good(c: Config, s: Sys) {
    && Normal(c)
    && Sound(c, s.core)
    && (s.core.phase == Open ==> s.core.openSince <= s.clock)
    && (s.core.phase == HalfOpen ==> s.core.openSince + c.timeout <= s.clock)
    && BegunBy(s)
  }

  ghost predicate BegunBy(s: Sys) {
    forall began :: began in s.inFlight ==> began <= s.clock
  }

  function Start(zeroTime: int, now: int): Sys {
    Sys(Initial(zeroTime), multiset{}, now)
  }

  lemma StepBegun(c: Config, s: Sys, e: Event)
    requires BegunBy(s) && Enabled(c, s, e)
    ensures BegunBy(Next(c, s, e))
  {
    hide Before, After, Lapse, Measured;
  }

  lemma StepGood(c: Config, s: Sys, e: Event)
    requires Good(c, s) && Enabled(c, s, e)
    ensures Good(c, Next(c, s, e))
    ensures s.clock <= Next(c, s, e).clock
  {
    StepBegun(c, s, e);
    hide Trips, Failures, Successes, SlowCalls, InFlightAfter, BegunBy, Measured;
    match e
    case Begin(now) => BeforeSound(c, s.core, now);
    case Finish(r, _, now, tripAt) => AfterSound(c, s.core, r, now, tripAt);
    case Observe(now) => LapseSound(c, s.core, now);
    case Reset => ResetSound(c, s.core);
    case ForceOpen => ResetSound(c, s.core);
  }

  /** The invariant holds in every state of every run, whatever is in flight. */
  lemma {:induction false} RunGood(c: Config, s: Sys, es: seq<Event>)
    requires Good(c, s) && Legal(c, s, es)
    ensures Good(c, Run(c, s, es))
    ensures s.clock <= Run(c, s, es).clock
    decreases |es|
  {
    if es != [] {
      StepGood(c, s, es[0]);
      RunGood(c, Next(c, s, es[0]), es[1..]);
    }
  }

  lemma StartGood(c: Config, zeroTime: int, now: int)
    requires Normal(c)
    ensures Good(c, Start(zeroTime, now))
  {
    InitialSound(c, zeroTime);
  }

  /** A run that starts with at most one given step. */
  lemma OneStep(c: Config, s: Sys, xs: seq<Event>, ys: seq<Event>)
    requires |xs| <= 1
    ensures Run(c, s, xs + ys) == Run(c, Run(c, s, xs), ys)
    ensures Admissions(c, s, xs + ys) == Admissions(c, s, xs) + Admissions(c, Run(c, s, xs), ys)
    ensures Legal(c, s, xs) && Legal(c, Run(c, s, xs), ys) ==> Legal(c, s, xs + ys)
  {
    if xs == [] {
      assert xs + ys == ys;
    } else {
      assert (xs + ys)[0] == xs[0] && (xs + ys)[1..] == ys && xs[1..] == [];
      var s' := Next(c, s, xs[0]);
      assert Run(c, s', []) == s' && Admissions(c, s', []) == 0;
    }
  }

  // ------------------------------------------------------------------ admission

  /** Exactly when a call is let through, and with which error it is turned away. */
  lemma AdmittedExactly(c: Config, s: Sys, now: int)
    requires Good(c, s)
    ensures var v, p := Judge(Lapse(c, s.core, now)), s.core.phase;
      var timedOut := now >= s.core.openSince + c.timeout;
      && (Admits(c, s, Begin(now))
          <==> p == Closed || (p == HalfOpen && s.core.probes < c.maxRequests) || (p == Open && timedOut))
      && (v == ErrTooManyRequests <==> p == HalfOpen && s.core.probes == c.maxRequests)
      && (v == ErrOpenState <==> p == Open && !timedOut)
      && (v == ErrForcedOpen <==> p == ForcedOpen)
    ensures var err, p := ErrorOf(Judge(Lapse(c, s.core, now))), s.core.phase;
      && (err == Some(OPEN_STATE_ERROR) <==> p == Open && now < s.core.openSince + c.timeout)
      && (err == Some(TOO_MANY_REQUESTS_ERROR) <==> p == HalfOpen && s.core.probes == c.maxRequests)
      && (err == Some(FORCED_OPEN_ERROR) <==> p == ForcedOpen)
      && (err == None <==> Admits(c, s, Begin(now)))
  {
  }

  /** Full timeouts that fit between two instants. */
  function Timeouts(c: Config, from: int, to: int): int
    requires c.timeout > 0
  {
    (to - from) / c.timeout
  }

  lemma TimeoutsMonotone(c: Config, from: int, from': int, to: int)
    requires c.timeout > 0 && from <= from' <= to
    ensures 0 <= Timeouts(c, from', to) <= Timeouts(c, from, to)
    ensures from + c.timeout <= from' ==> Timeouts(c, from', to) + 1 <= Timeouts(c, from, to)
  {
    QuotientMonotone(to - from', to - from, c.timeout);
    if from + c.timeout <= from' {
      QuotientMonotone(to - from' + c.timeout, to - from, c.timeout);
      QuotientStep(to - from', c.timeout);
    }
  }

  lemma QuotientStep(x: int, d: int)
    requires 0 <= x && 0 < d
    ensures (x + d) / d == x / d + 1
  {
    var p, q := (x + d) / d, x / d;
    assert x == q * d + x % d && x + d == p * d + (x + d) % d;
    assert (q + 1) * d == q * d + d;
    if p > q + 1 {
      MulGap(p, q + 1, d);
    } else if p < q + 1 {
      MulGap(q + 1, p, d);
    }
  }

  lemma QuotientMonotone(x: int, y: int, d: int)
    requires 0 <= x <= y && 0 < d
    ensures 0 <= x / d <= y / d
  {
    if x / d > y / d {
      MulGap(x / d, y / d, d);
    }
  }

  lemma Budget(m: nat, a: int, b: int)
    requires 0 <= a && a + 1 <= b
    ensures m * a + m <= m * b && 0 <= m * a
  {
    MulGap(b, a, m);
  }

  lemma BudgetMonotone(m: nat, a: int, b: int)
    requires 0 <= a <= b
    ensures 0 <= m * a <= m * b
  {
    if a < b {
      Budget(m, a, b);
    }
  }

  /** The most probes an episode that opened at `openSince` can have let through by `to`. */
  function ProbeBudget(c: Config, openSince: int, to: int): int
    requires c.timeout > 0
  {
    c.maxRequests * Timeouts(c, openSince, to)
  }

  /** Opening again after a full timeout leaves room for one whole round of probes. */
  lemma ReopeningPays(c: Config, from: int, from': int, to: int)
    requires c.timeout > 0 && from <= from' <= to
    ensures 0 <= ProbeBudget(c, from', to) <= ProbeBudget(c, from, to)
    ensures from + c.timeout <= from' ==> ProbeBudget(c, from', to) + c.maxRequests <= ProbeBudget(c, from, to)
  {
    TimeoutsMonotone(c, from, from', to);
    BudgetMonotone(c.maxRequests, Timeouts(c, from', to), Timeouts(c, from, to));
    if from + c.timeout <= from' {
      Budget(c.maxRequests, Timeouts(c, from', to), Timeouts(c, from, to));
    }
  }

  /** Probes of the current half-open episode; none outside one. */
  function Spent(s: Sys): nat {
    if s.core.phase == HalfOpen then s.core.probes else 0
  }

  /** One step away from Closed either keeps its episode and counts its admission in it, or opens
      a new episode a full timeout later. */
  lemma ProbeStep(c: Config, s: Sys, e: Event)
    requires Good(c, s) && Enabled(c, s, e) && c.timeout > 0
    requires s.core.phase == Open || s.core.phase == HalfOpen
    requires var p := Next(c, s, e).core.phase; p == Open || p == HalfOpen
    ensures var s' := Next(c, s, e);
      || (&& s'.core.openSince == s.core.openSince
          && Spent(s') == Spent(s) + (if Admits(c, s, e) then 1 else 0))
      || (&& s.core.openSince + c.timeout <= s'.core.openSince && !Admits(c, s, e)
          && Spent(s) <= c.maxRequests && Spent(s') == 0)
  {
    hide Trips, Failures, Successes, SlowCalls, Measured, BegunBy, InFlightAfter;
  }

  lemma {:induction false} ForcedOpenAdmitsNone(c: Config, s: Sys, es: seq<Event>)
    requires s.core.phase == ForcedOpen && NeverCloses(c, s, es)
    ensures Admissions(c, s, es) == 0
    ensures Run(c, s, es).core.phase == ForcedOpen
    decreases |es|
  {
    if es != [] {
      ForcedOpenAdmitsNone(c, Next(c, s, es[0]), es[1..]);
    }
  }

  /** Probe throttling: after a breaker opened at `openSince`, and until it closes again, the calls
      let through by any later instant are at most maxRequests per full timeout elapsed. */
  lemma {:induction false} ProbesThrottled(c: Config, s: Sys, es: seq<Event>)
    requires Good(c, s) && Legal(c, s, es) && NeverCloses(c, s, es)
    requires c.timeout > 0
    requires s.core.phase == Open || s.core.phase == HalfOpen
    ensures Spent(s) + Admissions(c, s, es) <= ProbeBudget(c, s.core.openSince, Run(c, s, es).clock)
    decreases |es|
  {
    var end := Run(c, s, es).clock;
    RunGood(c, s, es);
    ReopeningPays(c, s.core.openSince, s.core.openSince, end);
    if s.core.phase == HalfOpen {
      ReopeningPays(c, s.core.openSince, s.core.openSince + c.timeout, end);
    }
    if es != [] {
      var s' := Next(c, s, es[0]);
      StepGood(c, s, es[0]);
      RunGood(c, s', es[1..]);
      if s'.core.phase == ForcedOpen {
        ForcedOpenAdmitsNone(c, s', es[1..]);
      } else {
        ProbeStep(c, s, es[0]);
        ProbesThrottled(c, s', es[1..]);
        ReopeningPays(c, s.core.openSince, s'.core.openSince, end);
      }
    }
  }

  // ------------------------------------------------------------------ ledger

  /** Calls a run finished with the given outcome, and slow ones. */
  function Outcomes(es: seq<Event>, success: bool): nat {
    if es == [] then 0
    else (if es[0].Finish? && es[0].result.success == success then 1 else 0) + Outcomes(es[1..], success)
  }

  function SlowOutcomes(es: seq<Event>): nat {
    if es == [] then 0 else (if es[0].Finish? && es[0].result.slow then 1 else 0) + SlowOutcomes(es[1..])
  }

  lemma StepLedger(c: Config, s: Sys, e: Event)
    requires Enabled(c, s, e)
    ensures var s' := Next(c, s, e);
      && |s.inFlight| + (if Admits(c, s, e) then 1 else 0) == |s'.inFlight| + (if e.Finish? then 1 else 0)
      && s'.core.totals.calls == s.core.totals.calls + (if e.Finish? then 1 else 0)
      && s'.core.totals.successes == s.core.totals.successes + (if e.Finish? && e.result.success then 1 else 0)
      && s'.core.totals.failures == s.core.totals.failures + (if e.Finish? && !e.result.success then 1 else 0)
      && s'.core.totals.slowCalls == s.core.totals.slowCalls + (if e.Finish? && e.result.slow then 1 else 0)
  {
    hide Trips, Measured, BegunBy;
  }

  /** Every call let through is either still in flight or in the lifetime totals, once, under its
      own outcome, in whatever phase it finished. */
  lemma {:induction false} Ledger(c: Config, s: Sys, es: seq<Event>)
    requires Good(c, s) && Legal(c, s, es)
    ensures var end := Run(c, s, es);
      && |s.inFlight| + Admissions(c, s, es) == |end.inFlight| + Completions(es)
      && end.core.totals.calls == s.core.totals.calls + Completions(es)
      && end.core.totals.successes == s.core.totals.successes + Outcomes(es, true)
      && end.core.totals.failures == s.core.totals.failures + Outcomes(es, false)
      && end.core.totals.slowCalls == s.core.totals.slowCalls + SlowOutcomes(es)
      && end.core.totals.successes + end.core.totals.failures == end.core.totals.calls
    decreases |es|
  {
    if es != [] {
      hide Next, Good, Admits, Enabled;
      StepGood(c, s, es[0]);
      StepLedger(c, s, es[0]);
      Ledger(c, Next(c, s, es[0]), es[1..]);
    }
  }

  /** The results of the calls a run finished, in order. */
  function Results(es: seq<Event>): seq<CallResult> {
    if es == [] then [] else (if es[0].Finish? then [es[0].result] else []) + Results(es[1..])
  }

  ghost predicate StaysIn(c: Config, s: Sys, es: seq<Event>, phase: Phase)
    decreases |es|
  {
    && s.core.phase == phase
    && (es != [] ==> es[0] != Reset && StaysIn(c, Next(c, s, es[0]), es[1..], phase))
  }

  lemma StepLog(c: Config, s: Sys, e: Event)
    requires e != Reset && Next(c, s, e).core.phase == s.core.phase
    requires s.core.phase == Closed || s.core.phase == HalfOpen
    ensures Next(c, s, e).core.log == s.core.log + Results([e])
  {
    hide Trips, Measured, BegunBy, InFlightAfter, CountResult;
    assert [e][1..] == [];
    assert Results([]) == [];
  }

  /** What the window counters and the ring buffer are about: as long as the breaker stays closed,
      or half-open, its log gains exactly the results of the calls that finish, in order. */
  lemma {:induction false} LogIsResults(c: Config, s: Sys, es: seq<Event>, phase: Phase)
    requires StaysIn(c, s, es, phase)
    requires phase == Closed || phase == HalfOpen
    ensures Run(c, s, es).core.log == s.core.log + Results(es)
    decreases |es|
  {
    hide Next;
    if es == [] {
      assert s.core.log + [] == s.core.log;
    } else {
      var s' := Next(c, s, es[0]);
      LogIsResults(c, s', es[1..], phase);
      StepLog(c, s, es[0]);
      assert [es[0]][1..] == [] && Results([]) == [];
      assert Results(es) == Results([es[0]]) + Results(es[1..]);
      assert s.core.log + Results([es[0]]) + Results(es[1..]) == s.core.log + (Results([es[0]]) + Results(es[1..]));
    }
  }

  /** The phase a step acts in, after the lazy transition. */
  function ActsIn(c: Config, s: Sys, e: Event): Phase {
    match e
    case Begin(now) => Lapse(c, s.core, now).phase
    case Finish(_, _, now, _) => Lapse(c, s.core, now).phase
    case Observe(now) => Lapse(c, s.core, now).phase
    case Reset => s.core.phase
    case ForceOpen => s.core.phase
  }

  /** Whether a step is a finished call that moves the breaker from `from` to `to`. */
  function Moved(c: Config, s: Sys, e: Event, from: Phase, to: Phase): nat {
    if e.Finish? && ActsIn(c, s, e) == from && Next(c, s, e).core.phase == to then 1 else 0
  }

  /** Finished calls that moved the breaker from `from` to `to`. */
  function Moves(c: Config, s: Sys, es: seq<Event>, from: Phase, to: Phase): nat
    decreases |es|
  {
    if es == [] then 0 else Moved(c, s, es[0], from, to) + Moves(c, Next(c, s, es[0]), es[1..], from, to)
  }

  ghost predicate Unforced(es: seq<Event>) {
    forall e :: e in es ==> e != Reset && e != ForceOpen
  }

  function Tripped(s: Sys): nat {
    if s.core.phase == Open || s.core.phase == HalfOpen then 1 else 0
  }

  lemma TransitionStep(c: Config, s: Sys, e: Event)
    requires Good(c, s) && Enabled(c, s, e)
    ensures Next(c, s, e).core.totals.transitions == s.core.totals.transitions
              + Moved(c, s, e, Closed, Open) + Moved(c, s, e, HalfOpen, Open) + Moved(c, s, e, HalfOpen, Closed)
    ensures e != Reset && e != ForceOpen && s.core.phase != ForcedOpen ==>
              && Tripped(s) + Moved(c, s, e, Closed, Open) == Tripped(Next(c, s, e)) + Moved(c, s, e, HalfOpen, Closed)
              && Next(c, s, e).core.phase != ForcedOpen
  {
    hide Trips, Failures, Successes, SlowCalls, Measured, BegunBy, InFlightAfter;
  }

  /** `stateTransitions` counts the trips, the reopenings and the recoveries, and nothing else: not
      the lazy step, not Reset, not ForceOpen. */
  lemma {:induction false} TransitionsCounted(c: Config, s: Sys, es: seq<Event>)
    requires Good(c, s) && Legal(c, s, es)
    ensures Run(c, s, es).core.totals.transitions == s.core.totals.transitions
              + Moves(c, s, es, Closed, Open) + Moves(c, s, es, HalfOpen, Open) + Moves(c, s, es, HalfOpen, Closed)
    decreases |es|
  {
    hide Next, Moved, Good;
    if es != [] {
      StepGood(c, s, es[0]);
      TransitionStep(c, s, es[0]);
      TransitionsCounted(c, Next(c, s, es[0]), es[1..]);
    }
  }

  /** Trips and recoveries alternate: left to itself the breaker is tripped exactly when it has
      tripped once more than it has recovered. */
  lemma {:induction false} TripsBalance(c: Config, s: Sys, es: seq<Event>)
    requires Good(c, s) && Legal(c, s, es) && Unforced(es) && s.core.phase != ForcedOpen
    ensures Tripped(s) + Moves(c, s, es, Closed, Open) == Tripped(Run(c, s, es)) + Moves(c, s, es, HalfOpen, Closed)
    ensures Run(c, s, es).core.phase != ForcedOpen
    decreases |es|
  {
    hide Next, Moved, Good, Tripped;
    if es != [] {
      assert es[0] in es && forall e :: e in es[1..] ==> e in es;
      StepGood(c, s, es[0]);
      TransitionStep(c, s, es[0]);
      TripsBalance(c, Next(c, s, es[0]), es[1..]);
    }
  }

  // ------------------------------------------------------------------ half-open episodes

  lemma EpisodeStep(c: Config, s: Sys, e: Event)
    requires Good(c, s) && Enabled(c, s, e) && e != Reset
    requires s.core.phase == HalfOpen && Next(c, s, e).core.phase == HalfOpen
    ensures var s' := Next(c, s, e);
      |s'.inFlight| + |s'.core.log| + s.core.probes == |s.inFlight| + |s.core.log| + s'.core.probes
  {
    hide Trips, Failures, Successes, SlowCalls, Measured, BegunBy;
  }

  /** Within one half-open episode results recorded and calls in flight are conserved: they are the
      calls that were in flight before it plus its probes. */
  lemma {:induction false} EpisodeConserves(c: Config, s: Sys, es: seq<Event>)
    requires Good(c, s) && Legal(c, s, es) && StaysIn(c, s, es, HalfOpen)
    ensures var end := Run(c, s, es);
      |end.inFlight| + |end.core.log| + s.core.probes == |s.inFlight| + |s.core.log| + end.core.probes
    decreases |es|
  {
    hide Next, Good, Enabled;
    if es != [] {
      StepGood(c, s, es[0]);
      EpisodeStep(c, s, es[0]);
      EpisodeConserves(c, Next(c, s, es[0]), es[1..]);
    }
  }

  /** A finished call decides a half-open episode: any failure reopens it, the maxRequests-th
      recorded success closes it, an earlier success leaves it. */
  lemma HalfOpenDecides(c: Config, s: Sys, r: CallResult, began: int, now: int, tripAt: int)
    requires Good(c, s) && s.core.phase == HalfOpen
    ensures Next(c, s, Finish(r, began, now, tripAt)).core.phase != HalfOpen ==>
              Next(c, s, Finish(r, began, now, tripAt)).core.log == []
    ensures var p := Next(c, s, Finish(r, began, now, tripAt)).core.phase;
      && (p == Open <==> !r.success)
      && (p == Closed <==> r.success && |s.core.log| + 1 == c.maxRequests)
      && (p == HalfOpen <==> r.success && |s.core.log| + 1 < c.maxRequests)
  {
    hide Trips, Failures, Successes, SlowCalls;
  }

  /** Results a tripped breaker still has to record before it can close. */
  function Missing(c: Config, s: Sys): int {
    if s.core.phase == HalfOpen then c.maxRequests - |s.core.log|
    else if s.core.phase == Closed then 0
    else c.maxRequests
  }

  lemma NotDisabled(c: Config, s: Sys)
    requires Good(c, s)
    ensures s.core.phase != Disabled
  {
  }

  lemma RecoveryStep(c: Config, s: Sys, e: Event)
    requires Good(c, s) && Enabled(c, s, e) && e != Reset && e != ForceOpen
    requires s.core.phase == Open || s.core.phase == HalfOpen
    ensures Next(c, s, e).core.phase != ForcedOpen
    ensures Missing(c, s) <= Missing(c, Next(c, s, e)) + (if e.Finish? then 1 else 0)
    ensures Next(c, s, e).core.phase == Closed ==> CanSucceed(c)
  {
    hide Trips, Failures, Successes, SlowCalls, BegunBy, InFlightAfter;
    if e.Finish? {
      MeasuredExactly(c, e.result, e.now - e.began);
    }
    hide Measured;
  }

  /** Recovery takes at least maxRequests finished calls, and calls that can succeed. */
  lemma {:induction false} RecoveryNeedsResults(c: Config, s: Sys, es: seq<Event>)
    requires Good(c, s) && Legal(c, s, es) && Unforced(es) && s.core.phase != ForcedOpen
    ensures s.core.phase != Closed && Run(c, s, es).core.phase == Closed ==>
              Completions(es) >= Missing(c, s) && CanSucceed(c)
    decreases |es|
  {
    NotDisabled(c, s);
    hide Next, Good, Enabled, CanSucceed;
    if es != [] && s.core.phase != Closed {
      assert es[0] in es && forall e :: e in es[1..] ==> e in es;
      StepGood(c, s, es[0]);
      RecoveryStep(c, s, es[0]);
      var s' := Next(c, s, es[0]);
      if s'.core.phase != Closed {
        RecoveryNeedsResults(c, s', es[1..]);
      }
    }
  }

  lemma EmptyMultiset(m: multiset<int>)
    requires forall x :: x !in m
    ensures |m| == 0
  {
    assert forall x :: m[x] == multiset{}[x];
    assert m == multiset{};
  }

  /** `k` of the calls in flight succeed at `at`, and close the breaker. */
  lemma {:induction false} LateSuccessesClose(c: Config, s: Sys, k: nat, at: int) returns (es: seq<Event>)
    requires Good(c, s) && CanSucceed(c) && s.clock <= at && k <= |s.inFlight| && k == Missing(c, s)
    requires s.core.phase == HalfOpen || (s.core.phase == Open && s.core.openSince + c.timeout <= at)
    ensures Legal(c, s, es) && Unforced(es) && Admissions(c, s, es) == 0
    ensures Run(c, s, es).core.phase == Closed
    decreases k
  {
    hide Trips, Failures, Successes, SlowCalls, Measured;
    if forall b :: b !in s.inFlight {
      EmptyMultiset(s.inFlight);
      assert false;
    }
    var began :| began in s.inFlight;
    var r := CallResult(true, false, at);
    var e := Finish(r, began, at, at);
    MeasuredExactly(c, r, at - began);
    var s' := Next(c, s, e);
    StepGood(c, s, e);
    var rest: seq<Event> := [];
    if s'.core.phase == HalfOpen {
      rest := LateSuccessesClose(c, s', k - 1, at);
    }
    es := [e] + rest;
    assert es[0] == e && es[1..] == rest;
  }

  /** Recovery is not confined to probes: calls let through before the trip count towards it.  A
      tripped breaker can close without letting a single probe through exactly when at least
      maxRequests calls were in flight as it stood open, and calls can count as successful at all. */
  lemma ClosesUnprobed(c: Config, s: Sys)
    requires Good(c, s) && s.core.phase == Open
    ensures (exists es :: && Legal(c, s, es) && Unforced(es) && Admissions(c, s, es) == 0
                          && Run(c, s, es).core.phase == Closed)
       <==> |s.inFlight| >= c.maxRequests && CanSucceed(c)
  {
    if |s.inFlight| >= c.maxRequests && CanSucceed(c) {
      var at := if s.clock >= s.core.openSince + c.timeout then s.clock else s.core.openSince + c.timeout;
      var es := LateSuccessesClose(c, s, c.maxRequests, at);
    }
    forall es | Legal(c, s, es) && Unforced(es) && Admissions(c, s, es) == 0 && Run(c, s, es).core.phase == Closed
      ensures |s.inFlight| >= c.maxRequests && CanSucceed(c)
    {
      RecoveryNeedsResults(c, s, es);
      Ledger(c, s, es);
    }
  }

  /** In a half-open episode there is a call in flight or a result for every probe. */
  ghost predicate Attended(s: Sys) {
    s.core.phase == HalfOpen ==> |s.inFlight| + |s.core.log| >= s.core.probes
  }

  lemma StepAttended(c: Config, s: Sys, e: Event)
    requires Good(c, s) && Attended(s) && Enabled(c, s, e)
    ensures Attended(Next(c, s, e))
  {
    hide Trips, Failures, Successes, SlowCalls, Measured, BegunBy;
  }

  lemma {:induction false} RunAttended(c: Config, s: Sys, es: seq<Event>)
    requires Good(c, s) && Attended(s) && Legal(c, s, es)
    ensures Attended(Run(c, s, es))
    decreases |es|
  {
    if es != [] {
      StepAttended(c, s, es[0]);
      StepGood(c, s, es[0]);
      RunAttended(c, Next(c, s, es[0]), es[1..]);
    }
  }

  /** A half-open breaker out of probes is never stuck: in every run from the start enough calls are
      in flight, and an episode does not survive the end of that many. */
  lemma HalfOpenNotStuck(c: Config, zeroTime: int, now: int, es: seq<Event>)
    requires Normal(c) && Legal(c, Start(zeroTime, now), es)
    ensures var s := Run(c, Start(zeroTime, now), es);
      s.core.phase == HalfOpen ==>
        && (s.core.probes == c.maxRequests ==> |s.inFlight| >= Missing(c, s) >= 1)
        && (forall later :: Legal(c, s, later) && StaysIn(c, s, later, HalfOpen) ==> Completions(later) < Missing(c, s))
  {
    var s := Run(c, Start(zeroTime, now), es);
    StartGood(c, zeroTime, now);
    RunGood(c, Start(zeroTime, now), es);
    RunAttended(c, Start(zeroTime, now), es);
    forall later | Legal(c, s, later) && s.core.phase == HalfOpen && StaysIn(c, s, later, HalfOpen)
      ensures Completions(later) < Missing(c, s)
    {
      LogIsResults(c, s, later, HalfOpen);
      ResultsOfCompletions(later);
      StaysToTheEnd(c, s, later, HalfOpen);
      RunGood(c, s, later);
    }
  }

  lemma {:induction false} ResultsOfCompletions(es: seq<Event>)
    ensures |Results(es)| == Completions(es)
  {
    if es != [] {
      ResultsOfCompletions(es[1..]);
    }
  }

  lemma {:induction false} StaysToTheEnd(c: Config, s: Sys, es: seq<Event>, phase: Phase)
    requires StaysIn(c, s, es, phase)
    ensures Run(c, s, es).core.phase == phase
    decreases |es|
  {
    if es != [] {
      StaysToTheEnd(c, Next(c, s, es[0]), es[1..], phase);
    }
  }

  // ------------------------------------------------------------------ the bound is reached

  lemma {:induction false} RunsCompose(c: Config, s: Sys, xs: seq<Event>, ys: seq<Event>)
    requires Legal(c, s, xs) && Legal(c, Run(c, s, xs), ys)
    ensures Legal(c, s, xs + ys)
    ensures Run(c, s, xs + ys) == Run(c, Run(c, s, xs), ys)
    ensures Admissions(c, s, xs + ys) == Admissions(c, s, xs) + Admissions(c, Run(c, s, xs), ys)
    ensures NeverCloses(c, s, xs) && NeverCloses(c, Run(c, s, xs), ys) ==> NeverCloses(c, s, xs + ys)
    decreases |xs|
  {
    if xs == [] {
      assert xs + ys == ys;
    } else {
      assert (xs + ys)[0] == xs[0] && (xs + ys)[1..] == xs[1..] + ys;
      RunsCompose(c, Next(c, s, xs[0]), xs[1..], ys);
    }
  }

  /** `k` calls begin at `at`, then one of them fails. */
  function FailedRound(k: nat, at: int): seq<Event> {
    if k == 0 then [Finish(CallResult(false, false, at), at, at, at)] else [Begin(at)] + FailedRound(k - 1, at)
  }

  lemma {:induction false} FailedRoundRuns(c: Config, s: Sys, k: nat, at: int)
    requires Good(c, s) && CanFail(c) && s.clock <= at
    requires || (s.core.phase == Open && s.core.openSince + c.timeout <= at && k == c.maxRequests)
             || (s.core.phase == HalfOpen && k + s.core.probes == c.maxRequests && at in s.inFlight)
    ensures var es := FailedRound(k, at);
      && Legal(c, s, es) && NeverCloses(c, s, es)
      && Admissions(c, s, es) == k
      && Run(c, s, es).core.phase == Open && Run(c, s, es).core.openSince == at == Run(c, s, es).clock
    decreases k
  {
    hide Trips, Failures, Successes, SlowCalls;
    var es := FailedRound(k, at);
    if k == 0 {
      HalfOpenDecides(c, s, es[0].result, at, at, at);
      MeasuredExactly(c, es[0].result, 0);
      assert es[1..] == [];
      var s' := Next(c, s, es[0]);
      assert NeverCloses(c, s', []) && Legal(c, s', []) && Admissions(c, s', []) == 0 && Run(c, s', []) == s';
    } else {
      var s' := Next(c, s, Begin(at));
      assert es[0] == Begin(at) && es[1..] == FailedRound(k - 1, at);
      StepGood(c, s, Begin(at));
      FailedRoundRuns(c, s', k - 1, at);
    }
  }

  /** Some run uses the throttle bound up over the given number of timeouts. */
  ghost predicate Saturates(c: Config, s: Sys, rounds: nat, es: seq<Event>) {
    && Legal(c, s, es) && NeverCloses(c, s, es)
    && Run(c, s, es).clock == s.core.openSince + rounds * c.timeout
    && Admissions(c, s, es) == c.maxRequests * rounds
  }

  ghost predicate Saturable(c: Config, s: Sys, rounds: nat) {
    exists es :: Saturates(c, s, rounds, es)
  }

  lemma {:induction false} ThrottleReached(c: Config, s: Sys, rounds: nat) returns (es: seq<Event>)
    requires Good(c, s) && c.timeout > 0 && CanFail(c)
    requires s.core.phase == Open && s.clock == s.core.openSince
    ensures Saturates(c, s, rounds, es)
    ensures Admissions(c, s, es) == ProbeBudget(c, s.core.openSince, Run(c, s, es).clock)
    decreases rounds
  {
    if rounds == 0 {
      es := [];
    } else {
      var at := s.core.openSince + c.timeout;
      var first := FailedRound(c.maxRequests, at);
      FailedRoundRuns(c, s, c.maxRequests, at);
      RunGood(c, s, first);
      var rest := ThrottleReached(c, Run(c, s, first), rounds - 1);
      AppendRound(c, s, first, rest, rounds);
      es := first + rest;
    }
    hide Next, Good, Enabled, CanFail, FailedRound, Run, Legal, NeverCloses, Admissions;
    ExactQuotient(rounds, c.timeout);
  }

  lemma AppendRound(c: Config, s: Sys, first: seq<Event>, rest: seq<Event>, rounds: nat)
    requires rounds >= 1 && Legal(c, s, first) && NeverCloses(c, s, first)
    requires Admissions(c, s, first) == c.maxRequests
    requires Run(c, s, first).core.openSince == s.core.openSince + c.timeout
    requires Saturates(c, Run(c, s, first), rounds - 1, rest)
    ensures Saturates(c, s, rounds, first + rest)
  {
    hide Next, Run, Legal, NeverCloses, Admissions;
    RunsCompose(c, s, first, rest);
    OneMoreRound(rounds, c.timeout);
    OneMoreRound(rounds, c.maxRequests);
  }

  lemma OneMoreRound(rounds: nat, x: int)
    requires rounds >= 1
    ensures (rounds - 1) * x + x == rounds * x == x * rounds
    ensures x * (rounds - 1) + x == x * rounds
  {
  }

  lemma UnfailingStep(c: Config, s: Sys, e: Event)
    requires Good(c, s) && Enabled(c, s, e) && !CanFail(c)
    requires s.core.phase != Closed && Next(c, s, e).core.phase != Closed
    ensures Spent(s) + (if Admits(c, s, e) then 1 else 0) <= c.maxRequests
    ensures s.core.phase != ForcedOpen && Next(c, s, e).core.phase != ForcedOpen ==>
              Spent(Next(c, s, e)) == Spent(s) + (if Admits(c, s, e) then 1 else 0)
    ensures Next(c, s, e).core.phase == ForcedOpen ==> !Admits(c, s, e)
  {
    hide Trips, Failures, Successes, SlowCalls, BegunBy, InFlightAfter;
    if e.Finish? {
      MeasuredExactly(c, e.result, e.now - e.began);
    }
    hide Measured;
  }

  /** Where no call counts as failed no probe reopens the breaker: it lets through one round. */
  lemma {:induction false} UnfailingProbes(c: Config, s: Sys, es: seq<Event>)
    requires Good(c, s) && Legal(c, s, es) && NeverCloses(c, s, es) && !CanFail(c)
    ensures Spent(s) + Admissions(c, s, es) <= c.maxRequests
    decreases |es|
  {
    if es != [] {
      var s' := Next(c, s, es[0]);
      UnfailingStep(c, s, es[0]);
      StepGood(c, s, es[0]);
      if s'.core.phase == ForcedOpen {
        ForcedOpenAdmitsNone(c, s', es[1..]);
      } else {
        UnfailingProbes(c, s', es[1..]);
      }
    }
  }

  /** The throttle bound is exact: for every number of timeouts some run uses it up, exactly if
      calls can count as failed at all. */
  lemma ThrottleExact(c: Config, s: Sys)
    requires Good(c, s) && c.timeout > 0
    requires s.core.phase == Open && s.clock == s.core.openSince
    ensures (forall rounds: nat :: Saturable(c, s, rounds)) <==> CanFail(c)
  {
    if CanFail(c) {
      forall rounds: nat
        ensures Saturable(c, s, rounds)
      {
        var es := ThrottleReached(c, s, rounds);
      }
    } else if Saturable(c, s, 2) {
      var es :| Saturates(c, s, 2, es);
      UnfailingProbes(c, s, es);
      assert false;
    }
  }

  lemma ExactQuotient(q: nat, d: int)
    requires d > 0
    ensures (q * d) / d == q
  {
    var p := (q * d) / d;
    assert q * d == p * d + (q * d) % d;
    if p > q {
      MulGap(p, q, d);
    } else if p < q {
      MulGap(q, p, d);
    }
  }
}
