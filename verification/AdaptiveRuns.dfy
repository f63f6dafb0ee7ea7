/** Every run of the adaptive breaker: two objects, two locks, any number of callers.

    Execute takes the wrapper's lock to read the failure counter, later the inner breaker's lock
    (or ForceOpen's), runs the function, takes the inner lock again, and last the wrapper's lock to
    record.  Other callers may act between any two of these, and Reset takes the two locks one
    after the other.  The inner breaker's part of every run is a run of BreakerRuns. */
module AdaptiveRuns {
  import opened Breakers
  import opened Adaptives
  import B = BreakerRuns

  /** How the called function returned: no error, an error, or one of the breaker's own error
      values, which the wrapper takes for a rejection. */
  datatype Outcome = Fine | Failure | RejectionValue

  function OutcomeOf(err: Option<Error>): Outcome {
    if err.None? then Fine else if IsRejection(err) then RejectionValue else Failure
  }

  datatype Event =
    | Check                   // read the failure counter
    | Latch                   // ForceOpen by a caller that saw the limit
    | Enter(now: int)         // the inner beforeCall
    | Exit(result: CallResult, err: Option<Error>, began: int, now: int, tripAt: int)   // the inner afterCall
    | Record(outcome: Outcome)   // the wrapper's bookkeeping
    | Observe(now: int)
    | ForceOpen
    | ResetCounters
    | ResetInner

  /** `completions`: recorded since the counters were last reset, true for success.  `passed`:
      callers between Check and Enter; `latching`: callers between Check and Latch; `returning`:
      outcomes between Exit and Record; `resetting`: Resets between their two locks. */
  datatype State = State(inner: B.Sys, completions: seq<bool>, passed: nat, latching: nat,
                         returning: multiset<Outcome>, resetting: nat)

  /** The limit test at the head of Execute; a limit of zero disables it. */
  predicate AtLimit(limit: nat, completions: seq<bool>) {
    0 < limit <= Trailing(completions)
  }

  /** Check sends a caller to force the breaker open exactly when a limit is set and that many of the
      latest completions all failed. */
  lemma CheckLatches(c: Config, limit: nat, s: State)
    ensures var s' := Next(c, limit, s, Check);
      var latched := limit >= 1 && LastFailed(s.completions, limit);
      && s'.latching == s.latching + (if latched then 1 else 0)
      && s'.passed == s.passed + (if latched then 0 else 1)
      && s'.completions == s.completions && s'.inner == s.inner
    ensures AtLimit(limit, s.completions) <==> limit >= 1 && LastFailed(s.completions, limit)
  {
    TrailingAtLeast(s.completions, limit);
  }

  /** The inner breaker's step, if the event has one. */
  function Inner(e: Event): seq<B.Event> {
    match e
    case Latch => [B.ForceOpen]
    case Enter(now) => [B.Begin(now)]
    case Exit(r, _, began, now, tripAt) => [B.Finish(r, began, now, tripAt)]
    case Observe(now) => [B.Observe(now)]
    case ForceOpen => [B.ForceOpen]
    case ResetInner => [B.Reset]
    case _ => []
  }

  ghost predicate Enabled(c: Config, s: State, e: Event) {
    && B.Legal(c, s.inner, Inner(e))
    && match e
       case Latch => s.latching > 0
       case Enter(_) => s.passed > 0
       case Exit(r, err, began, now, _) => Measures(c, r, err, now - began)
       case Record(outcome) => outcome in s.returning
       case ResetInner => s.resetting > 0
       case _ => true
  }

  function Decrement(n: nat): nat {
    if n > 0 then n - 1 else 0
  }

  function Next(c: Config, limit: nat, s: State, e: Event): State {
    var t := s.(inner := B.Run(c, s.inner, Inner(e)));
    match e
    case Check => if AtLimit(limit, s.completions) then t.(latching := s.latching + 1) else t.(passed := s.passed + 1)
    case Latch => t.(latching := Decrement(s.latching))
    case Enter(_) => t.(passed := Decrement(s.passed))
    case Exit(_, err, _, _, _) =>
      if IsRejection(err) then t else t.(returning := s.returning + multiset{OutcomeOf(err)})
    case Record(outcome) =>
      t.(returning := s.returning - multiset{outcome}, completions := s.completions + [outcome == Fine])
    case ResetCounters => t.(completions := [], resetting := s.resetting + 1)
    case ResetInner => t.(resetting := Decrement(s.resetting))
    case _ => t
  }

  ghost predicate Legal(c: Config, limit: nat, s: State, es: seq<Event>)
    decreases |es|
  {
    es != [] ==> Enabled(c, s, es[0]) && Legal(c, limit, Next(c, limit, s, es[0]), es[1..])
  }

  function Run(c: Config, limit: nat, s: State, es: seq<Event>): State
    decreases |es|
  {
    if es == [] then s else Run(c, limit, Next(c, limit, s, es[0]), es[1..])
  }

  /** The inner breaker's run. */
  function InnerRun(es: seq<Event>): seq<B.Event> {
    if es == [] then [] else Inner(es[0]) + InnerRun(es[1..])
  }

  /** Functions started. */
  function Starts(c: Config, s: State, es: seq<Event>): nat {
    B.Admissions(c, s.inner, InnerRun(es))
  }

  lemma StepInner(c: Config, limit: nat, s: State, e: Event)
    ensures Next(c, limit, s, e).inner == B.Run(c, s.inner, Inner(e)) && |Inner(e)| <= 1
  {
  }

  /** The wrapper adds nothing to the inner breaker: projected, every run is one of its runs, so
      throttling, ledger and balance carry over. */
  lemma {:induction false} ProjectsToInner(c: Config, limit: nat, s: State, es: seq<Event>)
    requires Legal(c, limit, s, es)
    ensures B.Legal(c, s.inner, InnerRun(es))
    ensures B.Run(c, s.inner, InnerRun(es)) == Run(c, limit, s, es).inner
    decreases |es|
  {
    if es != [] {
      hide Next, B.Run, Inner;
      StepInner(c, limit, s, es[0]);
      ProjectsToInner(c, limit, Next(c, limit, s, es[0]), es[1..]);
      B.OneStep(c, s.inner, Inner(es[0]), InnerRun(es[1..]));
    } else {
      assert B.Run(c, s.inner, []) == s.inner;
    }
  }

  /** Throttling of the inner breaker, seen from the wrapper: what it starts while tripped, on top of
      the probes of a half-open episode already under way, is at most maxRequests per elapsed
      timeout. */
  lemma StartsThrottled(c: Config, limit: nat, s: State, es: seq<Event>)
    requires Legal(c, limit, s, es) && B.Good(c, s.inner) && c.timeout > 0
    requires s.inner.core.phase == Open || s.inner.core.phase == HalfOpen
    requires B.NeverCloses(c, s.inner, InnerRun(es))
    ensures B.Spent(s.inner) + Starts(c, s, es)
         <= B.ProbeBudget(c, s.inner.core.openSince, Run(c, limit, s, es).inner.clock)
  {
    ProjectsToInner(c, limit, s, es);
    B.ProbesThrottled(c, s.inner, InnerRun(es));
  }

  // ------------------------------------------------------------------ the latch

  ghost predicate NoInnerReset(es: seq<Event>) {
    forall e :: e in es ==> e != ResetInner
  }

  /** Once forced open nothing starts and nothing reopens it until an inner reset, whatever is in
      flight finishes and however the failure counter moves. */
  lemma {:induction false} LatchHolds(c: Config, limit: nat, s: State, es: seq<Event>)
    requires s.inner.core.phase == ForcedOpen && NoInnerReset(es)
    ensures Starts(c, s, es) == 0
    ensures Run(c, limit, s, es).inner.core.phase == ForcedOpen
    decreases |es|
  {
    hide Next, Inner;
    if es != [] {
      assert es[0] in es && forall e :: e in es[1..] ==> e in es;
      var s' := Next(c, limit, s, es[0]);
      ForcedStep(c, s.inner, es[0]);
      StepInner(c, limit, s, es[0]);
      LatchHolds(c, limit, s', es[1..]);
      B.OneStep(c, s.inner, Inner(es[0]), InnerRun(es[1..]));
    }
  }

  lemma ForcedStep(c: Config, s: B.Sys, e: Event)
    requires s.core.phase == ForcedOpen && e != ResetInner
    ensures B.Run(c, s, Inner(e)).core.phase == ForcedOpen
    ensures B.Admissions(c, s, Inner(e)) == 0
  {
    if Inner(e) != [] {
      assert Inner(e)[1..] == [];
      var s' := B.Next(c, s, Inner(e)[0]);
      assert B.Run(c, s', []) == s' && B.Admissions(c, s', []) == 0;
    }
  }

  /** The caller that sees the limit shuts the breaker: from its ForceOpen on, LatchHolds. */
  lemma LatchEngages(c: Config, limit: nat, s: State, es: seq<Event>)
    requires s.latching > 0 && NoInnerReset(es)
    ensures Starts(c, s, [Latch] + es) == 0
    ensures Run(c, limit, s, [Latch] + es).inner.core.phase == ForcedOpen
  {
    var s' := Next(c, limit, s, Latch);
    assert ([Latch] + es)[0] == Latch && ([Latch] + es)[1..] == es;
    assert [B.ForceOpen][1..] == [];
    var forced := B.Next(c, s.inner, B.ForceOpen);
    assert B.Run(c, forced, []) == forced && B.Admissions(c, forced, []) == 0;
    LatchHolds(c, limit, s', es);
    B.OneStep(c, s.inner, [B.ForceOpen], InnerRun(es));
  }

  ghost predicate StaysAtLimit(c: Config, limit: nat, s: State, es: seq<Event>)
    decreases |es|
  {
    && AtLimit(limit, s.completions)
    && (es != [] ==> StaysAtLimit(c, limit, Next(c, limit, s, es[0]), es[1..]))
  }

  lemma StragglerStep(c: Config, limit: nat, s: State, e: Event)
    requires Enabled(c, s, e) && AtLimit(limit, s.completions)
    ensures B.Admissions(c, s.inner, Inner(e)) + Next(c, limit, s, e).passed <= s.passed
  {
    if Inner(e) != [] {
      assert Inner(e)[1..] == [];
      var t := B.Next(c, s.inner, Inner(e)[0]);
      assert B.Admissions(c, t, []) == 0;
    }
  }

  /** From the moment the limit is reached, and while it stays reached, only callers that had
      already passed the check can still start a function. */
  lemma {:induction false} StragglersOnly(c: Config, limit: nat, s: State, es: seq<Event>)
    requires Legal(c, limit, s, es) && StaysAtLimit(c, limit, s, es)
    ensures Starts(c, s, es) + Run(c, limit, s, es).passed <= s.passed
    decreases |es|
  {
    hide Next, Inner, Enabled, AtLimit;
    if es != [] {
      StragglerStep(c, limit, s, es[0]);
      StepInner(c, limit, s, es[0]);
      StragglersOnly(c, limit, Next(c, limit, s, es[0]), es[1..]);
      B.OneStep(c, s.inner, Inner(es[0]), InnerRun(es[1..]));
    }
  }

  // ------------------------------------------------------------------ reset and the latch

  ghost predicate Quiet(es: seq<Event>) {
    forall e :: e in es ==> !e.Record? && e != ForceOpen && e != ResetCounters && e != ResetInner
  }

  lemma QuietStep(c: Config, limit: nat, s: State, e: Event)
    requires Enabled(c, s, e) && s.completions == [] && s.inner.core.phase != ForcedOpen && s.latching == 0
    requires !e.Record? && e != ForceOpen && e != ResetCounters && e != ResetInner
    ensures var s' := Next(c, limit, s, e);
      s'.completions == [] && s'.inner.core.phase != ForcedOpen && s'.latching == 0
  {
    hide Trips, Failures, Measures, Measured, B.InFlightAfter, CountResult;
    if Inner(e) != [] {
      assert Inner(e)[1..] == [];
      var t := B.Next(c, s.inner, Inner(e)[0]);
      assert B.Run(c, t, []) == t;
    }
  }

  lemma {:induction false} QuietRunStaysUnforced(c: Config, limit: nat, s: State, es: seq<Event>)
    requires Legal(c, limit, s, es) && Quiet(es) && s.completions == []
    requires s.inner.core.phase != ForcedOpen && s.latching == 0
    ensures Run(c, limit, s, es).inner.core.phase != ForcedOpen
    decreases |es|
  {
    hide Next, Enabled;
    if es != [] {
      assert es[0] in es && forall e :: e in es[1..] ==> e in es;
      QuietStep(c, limit, s, es[0]);
      QuietRunStaysUnforced(c, limit, Next(c, limit, s, es[0]), es[1..]);
    }
  }

  /** Reset does not wait for callers that already decided to latch.  Right after a complete Reset
      the breaker can be forced open again, with no new failure recorded and no ForceOpen call,
      exactly when such a caller is still pending. */
  lemma ResetCanBeUndone(c: Config, limit: nat, s: State)
    requires s.completions == [] && s.inner.core.phase == Closed
    ensures (exists es :: Legal(c, limit, s, es) && Quiet(es) && Run(c, limit, s, es).inner.core.phase == ForcedOpen)
       <==> s.latching > 0
  {
    if s.latching > 0 {
      var es := [Latch];
      LatchEngages(c, limit, s, []);
      assert [Latch] + [] == es && es[1..] == [];
      assert B.Enabled(c, s.inner, B.ForceOpen) && [B.ForceOpen][1..] == [];
      assert B.Legal(c, B.Next(c, s.inner, B.ForceOpen), []);
      assert Enabled(c, s, Latch);
      assert Legal(c, limit, Next(c, limit, s, Latch), []);
      assert Legal(c, limit, s, es);
    }
    forall es | Legal(c, limit, s, es) && Quiet(es) && Run(c, limit, s, es).inner.core.phase == ForcedOpen
      ensures s.latching > 0
    {
      if s.latching == 0 {
        QuietRunStaysUnforced(c, limit, s, es);
      }
    }
  }
}
