/** What a fallback that never fails means for the executor's breaker, over all runs.

    The fallback sits inside the breaker, so the breaker is told of no error.  It can still trip: a
    configured IsSuccessful may call an error-free call a failure, and calls may be slow.  The runs
    that show it are built here call by call. */
module FallbackRuns {
  import opened Executors
  import opened ExecutorRuns
  import opened Widths
  import opened Breakers
  import B = BreakerRuns
  import BreakerWindow
  import TB = TokenBuckets

  /** Calls that return no error can trip the breaker: they count as failures and a failure rate of
      100 per cent is enough, or they can be slow and the slow-call counter can reach its threshold. */
  predicate CanTrip(c: Config) {
    || (Failed(c, None) && c.failureRateThreshold <= 100)
    || (c.slowCallDuration > 0 && WithinReach(c, c.slowCallRateThreshold))
  }

  /** A log of calls that returned no error. */
  ghost predicate Steady(c: Config, log: seq<CallResult>) {
    Breakers.Failures(log) == if Failed(c, None) then |log| else 0
  }

  ghost predicate Tame(x: Shop) {
    x.options.fallback && x.setup.catchAll
  }

  ghost predicate Calm(x: Shop, w: World) {
    && B.Good(x.config, w.breaker)
    && w.breaker.core.phase == Closed && Steady(x.config, w.breaker.core.log)
  }

  /** The limiter, if there is one, grants single tokens again and again. */
  ghost predicate Flows(x: Shop, w: World) {
    x.options.rateLimiter ==> x.limit.rate > 0.0 && x.limit.burst >= 1 && w.bucket.tokens >= 0.0
  }

  /** A new executor with a new breaker. */
  lemma NewIsCalm(x: Shop, zeroTime: int, now: int, from: int)
    requires Normal(x.config)
    ensures Calm(x, Opening(x, B.Start(zeroTime, now), from))
    ensures x.limit.rate > 0.0 && x.limit.burst >= 1 ==> Flows(x, Opening(x, B.Start(zeroTime, now), from))
  {
    B.StartGood(x.config, zeroTime, now);
  }

  // ------------------------------------------------------------------ staying closed

  lemma SteadyNoTrip(c: Config, log: seq<CallResult>)
    requires Normal(c) && !CanTrip(c) && Steady(c, log)
    ensures !Trips(c, log)
  {
    var calls := Wrap32(|log|);
    if calls >= c.minimumNumberOfCalls {
      if Failed(c, None) {
        BreakerWindow.AboveHundredNeverReached(calls, calls, c.failureRateThreshold);
      } else {
        BreakerWindow.NothingReaches(calls, c.failureRateThreshold);
      }
      if c.slowCallDuration > 0 {
        OutOfReach(c, SlowCalls(log), calls, c.slowCallRateThreshold);
      }
    }
  }

  ghost predicate ErrorFree(c: Config, es: seq<B.Event>) {
    forall e :: e in es ==> (e.Finish? ==> e.result.success == !Failed(c, None)) && e != B.ForceOpen
  }

  /** A breaker that is told of no error and that such calls cannot trip never leaves Closed. */
  lemma {:induction false} ErrorFreeKeepsClosed(c: Config, s: B.Sys, es: seq<B.Event>)
    requires B.Good(c, s) && B.Legal(c, s, es) && ErrorFree(c, es) && !CanTrip(c)
    requires s.core.phase == Closed && Steady(c, s.core.log)
    ensures B.Run(c, s, es).core.phase == Closed
    decreases |es|
  {
    hide CanTrip, Trips;
    if es != [] {
      assert es[0] in es && forall e :: e in es[1..] ==> e in es;
      var s' := B.Next(c, s, es[0]);
      B.StepGood(c, s, es[0]);
      if es[0].Finish? {
        AppendCounts(s.core.log, es[0].result);
        SteadyNoTrip(c, s.core.log + [es[0].result]);
      }
      ErrorFreeKeepsClosed(c, s', es[1..]);
    }
  }

  lemma {:induction false} TraceHas(g: seq<Step>, i: nat)
    requires i < |g| && g[i].Do?
    ensures Count(Trace(g, g[i].id), MarkOf(g[i].act)) >= 1
  {
    var id, m := g[i].id, MarkOf(g[i].act);
    if i == 0 {
      CountConcat([m], Trace(g[1..], id), m);
      CountOne(m, m);
    } else {
      TraceHas(g[1..], i - 1);
      var head := if g[0].Do? && g[0].id == id then [MarkOf(g[0].act)] else [];
      CountConcat(head, Trace(g[1..], id), m);
    }
  }

  lemma {:induction false} EventHasStep(x: Shop, g: seq<Step>, e: B.Event) returns (i: nat)
    requires e in BreakerRun(x, g)
    ensures i < |g| && BreakerEvents(x, g[i]) == [e]
  {
    if e in BreakerEvents(x, g[0]) {
      i := 0;
    } else {
      var j := EventHasStep(x, g[1..], e);
      i := j + 1;
    }
  }

  lemma NoFailureReported(x: Shop, p: seq<Mark>)
    requires Tame(x) && Possible(x.setup, Built(x.options), p)
    ensures Count(p, Settled(false)) == 0
  {
    var t, ok :| Emits(x.setup, Built(x.options), t, ok) && p <= t;
    BreakerSeesNoFailure(x.setup, x.options, t, ok);
    CountPrefix(p, t, Settled(false));
  }

  /** Over all interleaved executions the breaker is told of no error. */
  lemma RunIsErrorFree(x: Shop, g: seq<Step>)
    requires Tame(x) && Faithful(x, g)
    ensures ErrorFree(x.config, BreakerRun(x, g))
  {
    forall e | e in BreakerRun(x, g)
      ensures (e.Finish? ==> e.result.success == !Failed(x.config, None)) && e != B.ForceOpen
    {
      var i := EventHasStep(x, g, e);
      if e.Finish? && g[i].act.err.Some? {
        TraceHas(g, i);
        NoFailureReported(x, Trace(g, g[i].id));
      }
    }
  }

  lemma StaysClosed(x: Shop, w: World, g: seq<Step>)
    requires Tame(x) && Calm(x, w) && !CanTrip(x.config)
    requires Legal(x, w, g) && Faithful(x, g)
    ensures Run(x, w, g).breaker.core.phase == Closed
  {
    hide CanTrip;
    ProjectsToBreaker(x, w, g);
    RunIsErrorFree(x, g);
    ErrorFreeKeepsClosed(x.config, w.breaker, BreakerRun(x, g));
  }

  // ------------------------------------------------------------------ putting runs together

  lemma {:induction false} RunsCompose(x: Shop, w: World, a: seq<Step>, b: seq<Step>)
    ensures Legal(x, w, a) && Legal(x, Run(x, w, a), b) <==> Legal(x, w, a + b)
    ensures Run(x, w, a + b) == Run(x, Run(x, w, a), b)
    decreases |a|
  {
    hide Next, Enabled;
    if a == [] {
      assert a + b == b;
    } else {
      assert (a + b)[0] == a[0] && (a + b)[1..] == a[1..] + b;
      RunsCompose(x, Next(x, w, a[0]), a[1..], b);
    }
  }

  lemma {:induction false} TracesCompose(a: seq<Step>, b: seq<Step>, id: nat)
    ensures Trace(a + b, id) == Trace(a, id) + Trace(b, id)
  {
    if a == [] {
      assert a + b == b;
    } else {
      assert (a + b)[0] == a[0] && (a + b)[1..] == a[1..] + b;
      TracesCompose(a[1..], b, id);
      hide MarkOf;
      var head := if a[0].Do? && a[0].id == id then [MarkOf(a[0].act)] else [];
      assert Trace(a + b, id) == head + Trace(a[1..] + b, id);
    }
  }

  /** Exactly the executions from `from` to below `to` have acted, each as its chain may. */
  ghost predicate Neat(x: Shop, g: seq<Step>, from: nat, to: nat) {
    && from <= to
    && forall id: nat ::
         if from <= id < to then Possible(x.setup, Built(x.options), Trace(g, id)) else Trace(g, id) == []
  }

  lemma NeatCompose(x: Shop, a: seq<Step>, b: seq<Step>, from: nat, mid: nat, to: nat)
    requires Neat(x, a, from, mid) && Neat(x, b, mid, to)
    ensures Neat(x, a + b, from, to)
    ensures forall id: nat :: mid <= id ==> Trace(a + b, id) == Trace(b, id)
  {
    forall id: nat
      ensures Trace(a + b, id) == if id < mid then Trace(a, id) else Trace(b, id)
    {
      TracesCompose(a, b, id);
    }
  }

  lemma NeatIsFaithful(x: Shop, g: seq<Step>, from: nat, to: nat)
    requires Neat(x, g, from, to) && x.options.circuitBreaker && x.setup.attempts >= 1
    ensures Faithful(x, g)
  {
    SimplestTraces(x.setup, x.options);
    assert [] <= Passed(x.options);
    forall id: nat
      ensures Possible(x.setup, Built(x.options), Trace(g, id))
    {
    }
  }

  // ------------------------------------------------------------------ one execution at a time

  ghost predicate Able(x: Shop, w: World) {
    && Tame(x) && x.options.circuitBreaker && x.setup.attempts >= 1
    && B.Good(x.config, w.breaker) && Flows(x, w)
  }

  /** An instant at which a token is left and the breaker's clock has come. */
  function Ready(x: Shop, w: World): int
    requires x.options.rateLimiter ==> x.limit.rate > 0.0
  {
    if !x.options.rateLimiter then w.breaker.clock
    else
      var refilled := w.bucket.last + TB.Delay(x.limit, 1.0) + 1;
      if refilled >= w.breaker.clock then refilled else w.breaker.clock
  }

  function TokenSteps(x: Shop, id: nat, at: int): seq<Step> {
    if x.options.rateLimiter then [Do(id, Take(at))] else []
  }

  lemma TokenStepsRun(x: Shop, w: World, id: nat)
    requires Able(x, w)
    ensures var g := TokenSteps(x, id, Ready(x, w));
      var w' := Run(x, w, g);
      && Legal(x, w, g) && w' == w.(bucket := w'.bucket) && Able(x, w')
      && w.breaker.clock <= Ready(x, w)
    ensures forall i: nat :: Trace(TokenSteps(x, id, Ready(x, w)), i) == if i == id then Outset(x.options) else []
  {
    if x.options.rateLimiter {
      var at := Ready(x, w);
      var s := Do(id, Take(at));
      TB.DelayGain(x.limit, 1.0, w.bucket.last, at);
      assert TB.Affords(x.limit, w.bucket, at, 1);
      var w' := Next(x, w, s);
      assert [s][1..] == [];
      assert Legal(x, w', []) && Run(x, w', []) == w';
      assert B.Run(x.config, w.breaker, []) == w.breaker;
      assert Trace([], id) == [];
    }
  }

  lemma OneEvent(c: Config, s: B.Sys, e: B.Event)
    ensures B.Run(c, s, [e]) == B.Next(c, s, e)
  {
    assert [e][1..] == [];
    assert B.Run(c, B.Next(c, s, e), []) == B.Next(c, s, e);
  }

  /** A call that enters at `at`, lasts for `duration` and returns no error. */
  function CallSteps(id: nat, at: int, duration: nat): seq<Step> {
    var end := at + duration;
    [Do(id, Enter(at)), Do(id, Call), Do(id, Settle(None, duration, end, at, end, end))]
  }

  lemma CallStepsTrace(id: nat, at: int, duration: nat)
    ensures forall i: nat ::
              Trace(CallSteps(id, at, duration), i) == if i == id then [Admitted, Called, Settled(true)] else []
  {
    var g := CallSteps(id, at, duration);
    assert g[1..][1..][1..] == [];
    assert forall i: nat :: Trace([], i) == [];
    forall i: nat
      ensures Trace(g, i) == if i == id then [Admitted, Called, Settled(true)] else []
    {
      assert Trace(g[1..][1..], i) == if i == id then [Settled(true)] else [];
      assert Trace(g[1..], i) == if i == id then [Called, Settled(true)] else [];
    }
  }

  lemma ResultMeasured(x: Shop, a: Act)
    requires a.Settle? && a.duration >= 0
    ensures Measured(x.config, ResultIn(x, a), a.duration)
  {
    assert Measures(x.config, ResultIn(x, a), a.err, a.duration);
  }

  lemma CallStepsRun(x: Shop, w: World, id: nat, at: int, duration: nat)
    requires Able(x, w) && w.breaker.core.phase == Closed && w.breaker.clock <= at
    ensures var g := CallSteps(id, at, duration);
      var w' := Run(x, w, g);
      var end := at + duration;
      && Legal(x, w, g) && Able(x, w')
      && w'.breaker.core == After(x.config, w.breaker.core, ResultOf(x.config, None, duration, end), end, end)
  {
    hide Trips, Breakers.Failures, SlowCalls, Successes, Measured, B.BegunBy, Outset;
    var g := CallSteps(id, at, duration);
    var end := at + duration;
    assert g[1..][1..][1..] == [];
    OneEvent(x.config, w.breaker, B.Begin(at));
    B.StepGood(x.config, w.breaker, B.Begin(at));
    var w1 := Next(x, w, g[0]);
    assert w1.breaker.core == w.breaker.core && at in w1.breaker.inFlight && w1.breaker.clock == at;
    var w2 := Next(x, w1, g[1]);
    assert w2 == w1;
    var r := ResultIn(x, g[2].act);
    ResultMeasured(x, g[2].act);
    var e := B.Finish(r, at, end, end);
    OneEvent(x.config, w2.breaker, e);
    B.StepGood(x.config, w2.breaker, e);
    var w3 := Next(x, w2, g[2]);
    assert Legal(x, w3, []) && Run(x, w3, []) == w3;
    assert Legal(x, w2, g[1..][1..]) && Run(x, w2, g[1..][1..]) == w3;
    assert Legal(x, w1, g[1..]) && Run(x, w1, g[1..]) == w3;
  }

  /** The counts of `log'` are those of `log` and `m` more calls that return no error. */
  ghost predicate Grown(c: Config, log: seq<CallResult>, log': seq<CallResult>, m: nat, slow: bool) {
    && |log'| == |log| + m
    && SlowCalls(log') == SlowCalls(log) + (if slow then m else 0)
    && (Steady(c, log) ==> Steady(c, log'))
  }

  /** A closed breaker takes one more call: it trips, or its log has grown by it. */
  lemma OneVisit(x: Shop, w: World, id: nat, duration: nat) returns (g: seq<Step>)
    requires Able(x, w) && w.breaker.core.phase == Closed
    ensures Legal(x, w, g) && Neat(x, g, id, id + 1)
    ensures var w' := Run(x, w, g);
      && Able(x, w')
      && (|| w'.breaker.core.phase == Open
          || (w'.breaker.core.phase == Closed
              && Grown(x.config, w.breaker.core.log, w'.breaker.core.log, 1,
                       x.config.slowCallDuration > 0 && duration > x.config.slowCallDuration)))
  {
    var at := Ready(x, w);
    var a, b := TokenSteps(x, id, at), CallSteps(id, at, duration);
    g := a + b;
    TokenStepsRun(x, w, id);
    var mid := Run(x, w, a);
    CallStepsRun(x, mid, id, at, duration);
    RunsCompose(x, w, a, b);
    VisitIsNeat(x, a, b, id, at, duration);
    AppendCounts(w.breaker.core.log, ResultOf(x.config, None, duration, at + duration));
    hide Trips, Breakers.Failures, SlowCalls, Legal, Run, Neat, Able;
  }

  lemma VisitIsNeat(x: Shop, a: seq<Step>, b: seq<Step>, id: nat, at: int, duration: nat)
    requires x.options.circuitBreaker && x.setup.attempts >= 1
    requires b == CallSteps(id, at, duration)
    requires forall i: nat :: Trace(a, i) == if i == id then Outset(x.options) else []
    ensures Neat(x, a + b, id, id + 1)
  {
    CallStepsTrace(id, at, duration);
    SimplestTraces(x.setup, x.options);
    forall i: nat
      ensures Trace(a + b, i) == if i == id then Passed(x.options) else []
    {
      TracesCompose(a, b, i);
    }
    assert Possible(x.setup, Built(x.options), Passed(x.options));
  }

  /** `m` calls of the same duration, one after the other, or fewer that trip the breaker. */
  lemma {:induction false} Visits(x: Shop, w: World, from: nat, m: nat, duration: nat) returns (g: seq<Step>, to: nat)
    requires Able(x, w) && w.breaker.core.phase == Closed
    ensures Legal(x, w, g) && Neat(x, g, from, to)
    ensures var w' := Run(x, w, g);
      && Able(x, w')
      && (|| w'.breaker.core.phase == Open
          || (w'.breaker.core.phase == Closed
              && Grown(x.config, w.breaker.core.log, w'.breaker.core.log, m,
                       x.config.slowCallDuration > 0 && duration > x.config.slowCallDuration)))
    decreases m
  {
    if m == 0 {
      g, to := [], from;
    } else {
      var a := OneVisit(x, w, from, duration);
      var mid := Run(x, w, a);
      if mid.breaker.core.phase == Open {
        g, to := a, from + 1;
      } else {
        var b, end := Visits(x, mid, from + 1, m - 1, duration);
        g, to := a + b, end;
        RunsCompose(x, w, a, b);
        NeatCompose(x, a, b, from, from + 1, end);
      }
    }
  }

  // ------------------------------------------------------------------ a run that trips

  /** How many calls bring a uint32 counter at `n` to `shown`, once round. */
  function Until(n: nat, shown: nat): (k: nat)
    requires shown < TWO_TO_THE_32
    ensures Wrap32(n + k) == shown
  {
    TWO_TO_THE_32 - n % TWO_TO_THE_32 + shown
  }

  lemma AllFailingTrips(c: Config, log: seq<CallResult>)
    requires Normal(c) && Failed(c, None) && c.failureRateThreshold <= 100
    requires Steady(c, log) && Wrap32(|log|) == c.minimumNumberOfCalls
    ensures Trips(c, log)
  {
    BreakerWindow.AllReaches(c.minimumNumberOfCalls, c.failureRateThreshold);
  }

  lemma Trip(x: Shop, w: World) returns (g: seq<Step>, to: nat)
    requires Able(x, w) && Calm(x, w) && CanTrip(x.config)
    ensures Legal(x, w, g) && Neat(x, g, 0, to)
    ensures Able(x, Run(x, w, g)) && Run(x, w, g).breaker.core.phase == Open
  {
    var c := x.config;
    hide Legal, Run, Neat, RateReaches;
    if Failed(c, None) && c.failureRateThreshold <= 100 {
      g, to := Visits(x, w, 0, Until(|w.breaker.core.log|, c.minimumNumberOfCalls), 0);
      var w' := Run(x, w, g);
      if w'.breaker.core.phase == Closed {
        AllFailingTrips(c, w'.breaker.core.log);
        assert false;
      }
    } else {
      g, to := SlowTrip(x, w);
    }
  }

  /** Slow calls until their counter shows the most it can, then fast ones until the call counter
      shows the minimum. */
  lemma SlowTrip(x: Shop, w: World) returns (g: seq<Step>, to: nat)
    requires Able(x, w) && Calm(x, w)
    requires x.config.slowCallDuration > 0 && WithinReach(x.config, x.config.slowCallRateThreshold)
    ensures Legal(x, w, g) && Neat(x, g, 0, to)
    ensures Able(x, Run(x, w, g)) && Run(x, w, g).breaker.core.phase == Open
  {
    var c := x.config;
    hide Legal, Run, Neat, RateReaches;
    var a, mid := Visits(x, w, 0, Until(SlowCalls(w.breaker.core.log), TWO_TO_THE_32 - 1), c.slowCallDuration + 1);
    var u := Run(x, w, a);
    if u.breaker.core.phase == Open {
      g, to := a, mid;
    } else {
      var b, end := Visits(x, u, mid, Until(|u.breaker.core.log|, c.minimumNumberOfCalls), 0);
      g, to := a + b, end;
      RunsCompose(x, w, a, b);
      NeatCompose(x, a, b, 0, mid, end);
      var w' := Run(x, u, b);
      if w'.breaker.core.phase == Closed {
        assert false;
      }
    }
  }

  // ------------------------------------------------------------------ a run that turns a call away

  /** Probes a tripped breaker can still let through. */
  function Left(c: Config, s: B.Sys): nat
    requires s.core.probes <= s.core.allowed || s.core.phase != HalfOpen
  {
    if s.core.phase == HalfOpen then s.core.allowed - s.core.probes else c.maxRequests + 1
  }

  lemma LeftIsDefined(x: Shop, w: World)
    requires B.Good(x.config, w.breaker)
    ensures w.breaker.core.probes <= w.breaker.core.allowed || w.breaker.core.phase != HalfOpen
  {
  }

  /** One more execution asks a tripped breaker: it is turned away, or it is a probe. */
  lemma OneKnock(x: Shop, w: World, id: nat) returns (g: seq<Step>)
    requires Able(x, w) && (w.breaker.core.phase == Open || w.breaker.core.phase == HalfOpen)
    ensures Legal(x, w, g) && Neat(x, g, id, id + 1)
    ensures var w' := Run(x, w, g);
      || Trace(g, id) == Refused(x.options)
      || (Able(x, w') && w'.breaker.core.phase == HalfOpen && Left(x.config, w'.breaker) < Left(x.config, w.breaker))
  {
    var at := Ready(x, w);
    var a := TokenSteps(x, id, at);
    TokenStepsRun(x, w, id);
    var mid := Run(x, w, a);
    var e := B.Begin(at);
    OneEvent(x.config, mid.breaker, e);
    B.StepGood(x.config, mid.breaker, e);
    var s := if B.Admits(x.config, mid.breaker, e) then Do(id, Enter(at)) else Do(id, Bounce(at));
    g := a + [s];
    OneStepRun(x, mid, s);
    RunsCompose(x, w, a, [s]);
    KnockIsNeat(x, a, s, id);
    hide Legal, Run, Neat, Trace;
  }

  lemma OneStepRun(x: Shop, w: World, s: Step)
    ensures Legal(x, w, [s]) <==> Enabled(x, w, s)
    ensures Run(x, w, [s]) == Next(x, w, s)
  {
    hide Next, Enabled;
    assert [s][1..] == [];
    assert Legal(x, Next(x, w, s), []) && Run(x, Next(x, w, s), []) == Next(x, w, s);
  }

  lemma KnockIsNeat(x: Shop, a: seq<Step>, s: Step, id: nat)
    requires x.options.circuitBreaker && x.setup.attempts >= 1
    requires s.Do? && s.id == id && (s.act.Enter? || s.act.Bounce?)
    requires forall i: nat :: Trace(a, i) == if i == id then Outset(x.options) else []
    ensures Neat(x, a + [s], id, id + 1)
    ensures s.act.Bounce? ==> Trace(a + [s], id) == Refused(x.options)
  {
    SimplestTraces(x.setup, x.options);
    assert [s][1..] == [];
    forall i: nat
      ensures Trace(a + [s], i) == if i == id then Outset(x.options) + [MarkOf(s.act)] else []
    {
      TracesCompose(a, [s], i);
      assert Trace([], i) == [];
    }
    if s.act.Enter? {
      assert Outset(x.options) + [Admitted] <= Passed(x.options);
    }
    assert Possible(x.setup, Built(x.options), Outset(x.options) + [MarkOf(s.act)]);
  }

  lemma {:induction false} Knocks(x: Shop, w: World, from: nat) returns (g: seq<Step>, to: nat)
    requires Able(x, w) && (w.breaker.core.phase == Open || w.breaker.core.phase == HalfOpen)
    ensures Legal(x, w, g) && Neat(x, g, from, to) && from < to
    ensures Trace(g, to - 1) == Refused(x.options)
    decreases Left(x.config, w.breaker)
  {
    hide Legal, Neat, Run, Trace, B.Good, Emits, Refused;
    LeftIsDefined(x, w);
    var a := OneKnock(x, w, from);
    if Trace(a, from) == Refused(x.options) {
      g, to := a, from + 1;
    } else {
      var b, end := Knocks(x, Run(x, w, a), from + 1);
      g, to := a + b, end;
      RunsCompose(x, w, a, b);
      NeatCompose(x, a, b, from, from + 1, end);
    }
  }

  // ------------------------------------------------------------------ exactly when

  ghost predicate AlwaysClosed(x: Shop, w: World) {
    forall g :: Legal(x, w, g) && Faithful(x, g) ==> Run(x, w, g).breaker.core.phase == Closed
  }

  /** Where the fallback sits it disables the breaker, or not: with one that never fails, the breaker
      stays closed in every run exactly when calls that return no error cannot trip it.  With the
      defaults for IsSuccessful and SlowCallDuration they cannot. */
  lemma FallbackDisablesBreaker(x: Shop, w: World)
    requires Tame(x) && Calm(x, w)
    ensures !CanTrip(x.config) ==> AlwaysClosed(x, w)
    ensures Able(x, w) ==> (AlwaysClosed(x, w) <==> !CanTrip(x.config))
  {
    hide CanTrip, Able;
    if !CanTrip(x.config) {
      forall g | Legal(x, w, g) && Faithful(x, g)
        ensures Run(x, w, g).breaker.core.phase == Closed
      {
        StaysClosed(x, w, g);
      }
    } else if Able(x, w) {
      var g, to := Trip(x, w);
      assert x.options.circuitBreaker && x.setup.attempts >= 1 by { AbleMeans(x, w); }
      NeatIsFaithful(x, g, 0, to);
    }
  }

  lemma AbleMeans(x: Shop, w: World)
    requires Able(x, w)
    ensures x.options.circuitBreaker && x.setup.attempts >= 1
  {
  }

  lemma {:induction false} MarkHasStep(g: seq<Step>, id: nat, m: Mark) returns (i: nat)
    requires m in Trace(g, id)
    ensures i < |g| && g[i].Do? && g[i].id == id && MarkOf(g[i].act) == m
  {
    if g[0].Do? && g[0].id == id && MarkOf(g[0].act) == m {
      i := 0;
    } else {
      var j := MarkHasStep(g[1..], id, m);
      i := j + 1;
    }
  }

  lemma PrefixFaithful(x: Shop, a: seq<Step>, b: seq<Step>)
    requires Faithful(x, a + b)
    ensures Faithful(x, a)
  {
    forall id: nat
      ensures Possible(x.setup, Built(x.options), Trace(a, id))
    {
      TracesCompose(a, b, id);
      var p := Trace(a, id);
      assert p <= Trace(a + b, id);
      var t, ok :| Emits(x.setup, Built(x.options), t, ok) && Trace(a + b, id) <= t;
      assert p <= t;
    }
  }

  /** A breaker that stays closed turns nobody away. */
  lemma NobodyTurnedAway(x: Shop, w: World, g: seq<Step>, i: nat)
    requires Tame(x) && Calm(x, w) && Legal(x, w, g) && Faithful(x, g)
    requires i < |g| && g[i].Do?
    ensures g[i].act.Bounce? ==> CanTrip(x.config)
  {
    hide CanTrip;
    if !CanTrip(x.config) {
      var a, b := g[..i], g[i..];
      assert g == a + b && b[0] == g[i];
      RunsCompose(x, w, a, b);
      PrefixFaithful(x, a, b);
      StaysClosed(x, w, a);
      assert Enabled(x, Run(x, w, a), g[i]);
    }
  }

  /** Some execution is told no. */
  ghost predicate TurnsAway(g: seq<Step>) {
    exists i :: 0 <= i < |g| && g[i].Do? && g[i].act.Bounce?
  }

  /** Whatever the other layers, the breaker turns a call away in some run exactly when calls that
      return no error can trip it. */
  lemma TurnsAwayExactly(x: Shop, w: World)
    requires Able(x, w) && Calm(x, w)
    ensures (exists g :: Legal(x, w, g) && Faithful(x, g) && TurnsAway(g)) <==> CanTrip(x.config)
  {
    hide CanTrip;
    if CanTrip(x.config) {
      var g, id := TurnedAwayRun(x, w);
      var i := MarkHasStep(g, id, Turned);
      assert TurnsAway(g);
    } else {
      forall g: seq<Step> | Legal(x, w, g) && Faithful(x, g)
        ensures !TurnsAway(g)
      {
        if TurnsAway(g) {
          var i: nat :| i < |g| && g[i].Do? && g[i].act.Bounce?;
          NobodyTurnedAway(x, w, g, i);
        }
      }
    }
  }

  /** A run that trips the breaker and then asks until it turns an execution away. */
  lemma TurnedAwayRun(x: Shop, w: World) returns (g: seq<Step>, id: nat)
    requires Able(x, w) && Calm(x, w) && CanTrip(x.config)
    ensures Legal(x, w, g) && Faithful(x, g)
    ensures Trace(g, id) == Refused(x.options) && Turned in Trace(g, id)
  {
    hide CanTrip;
    var a, mid := Trip(x, w);
    var b, end := Knocks(x, Run(x, w, a), mid);
    g, id := a + b, end - 1;
    RunsCompose(x, w, a, b);
    NeatCompose(x, a, b, 0, mid, end);
    NeatIsFaithful(x, g, 0, end);
  }

  /** With a breaker, and no other layer outside the fallback that can refuse, some run has an
      execution that returns an error exactly when calls that return none can trip the breaker. */
  lemma FallbackSavesExactly(x: Shop, w: World)
    requires Tame(x) && Calm(x, w) && x.setup.attempts >= 1 && !CanRefuse(x.setup, x.options)
    ensures (exists g, id :: Legal(x, w, g) && Faithful(x, g) && Emits(x.setup, Built(x.options), Trace(g, id), false))
       <==> x.options.circuitBreaker && CanTrip(x.config)
  {
    hide CanTrip;
    if x.options.circuitBreaker && CanTrip(x.config) {
      var g, id := TurnedAwayRun(x, w);
      SimplestTraces(x.setup, x.options);
      assert Emits(x.setup, Built(x.options), Trace(g, id), false);
    }
    forall g, id | Legal(x, w, g) && Faithful(x, g) && Emits(x.setup, Built(x.options), Trace(g, id), false)
      ensures x.options.circuitBreaker && CanTrip(x.config)
    {
      ErrorMeansTurnedAway(x.setup, x.options, Trace(g, id));
      var i := MarkHasStep(g, id, Turned);
      if !CanTrip(x.config) {
        NobodyTurnedAway(x, w, g, i);
      }
    }
  }
}
