/** Runs of the breaker in terms of what the calls returned: errors trip it, calls without an error
    do not; and the life of a breaker with nothing configured. */
module ErrorRuns {
  import opened Widths
  import opened Breakers
  import opened BreakerRuns
  import BreakerWindow
  import FallbackRuns

  /** The finished call returned `err`. */
  ghost predicate ReturnedWith(c: Config, e: Event, err: Option<Error>)
    requires e.Finish?
  {
    Measures(c, e.result, err, e.now - e.began)
  }

  /** If the step finishes a call, that call returned an error just if `failing`. */
  ghost predicate Returned(c: Config, e: Event, failing: bool) {
    e.Finish? ==> exists err :: ReturnedWith(c, e, err) && failing == (err != None)
  }

  /** Every finished call returned an error just if `failing`, and nobody interferes. */
  ghost predicate AllReturned(c: Config, es: seq<Event>, failing: bool) {
    forall e :: e in es ==> Returned(c, e, failing) && e != Reset && e != ForceOpen
  }

  /** Success is the absence of an error, and no call is slow. */
  predicate Plain(c: Config) {
    c.isSuccessful == None && c.slowCallDuration <= 0
  }

  lemma ResultSays(c: Config, e: Event, failing: bool)
    requires Plain(c) && e.Finish? && Returned(c, e, failing)
    ensures e.result.success == !failing
  {
    var err :| ReturnedWith(c, e, err) && failing == (err != None);
    var duration :| 0 <= duration <= e.now - e.began && e.result == ResultOf(c, err, duration, e.result.time);
  }

  ghost predicate AllErrors(log: seq<CallResult>) {
    forall r :: r in log ==> !r.success
  }

  lemma TooFewToTrip(c: Config, log: seq<CallResult>)
    requires Normal(c) && |log| < c.minimumNumberOfCalls
    ensures !Trips(c, log)
  {
    hide RateReaches;
  }

  lemma ClosedStep(c: Config, s: Sys, e: Event)
    requires Plain(c) && Normal(c) && s.core.phase == Closed && e != Reset && e != ForceOpen
    requires Returned(c, e, true) && AllErrors(s.core.log)
    requires |s.core.log| + (if e.Finish? then 1 else 0) < c.minimumNumberOfCalls
    ensures var s' := Next(c, s, e).core;
      && s'.phase == Closed && AllErrors(s'.log)
      && |s'.log| == |s.core.log| + (if e.Finish? then 1 else 0)
  {
    hide InFlightAfter, Returned, Trips, CountResult, Normal;
    if e.Finish? {
      ResultSays(c, e, true);
      TooFewToTrip(c, s.core.log + [e.result]);
    }
  }

  lemma {:induction false} ErrorsPileUp(c: Config, s: Sys, es: seq<Event>)
    requires Plain(c) && Normal(c) && s.core.phase == Closed && AllErrors(s.core.log)
    requires AllReturned(c, es, true) && |s.core.log| + Completions(es) < c.minimumNumberOfCalls
    ensures var end := Run(c, s, es).core;
      end.phase == Closed && AllErrors(end.log) && |end.log| == |s.core.log| + Completions(es)
    decreases |es|
  {
    hide Next, Returned;
    if es != [] {
      assert es[0] in es && forall e :: e in es[1..] ==> e in es;
      ClosedStep(c, s, es[0]);
      ErrorsPileUp(c, Next(c, s, es[0]), es[1..]);
    }
  }

  /** A new breaker whose calls all return errors stays closed until the minimum number of them have
      finished, and opens with the last of these. */
  lemma ErrorsOpen(c: Config, zeroTime: int, now: int, es: seq<Event>, e: Event)
    requires Normal(c) && Plain(c) && c.failureRateThreshold <= 100
    requires AllReturned(c, es, true) && e.Finish? && Returned(c, e, true)
    requires Completions(es) + 1 == c.minimumNumberOfCalls
    ensures var s := Run(c, Start(zeroTime, now), es);
      && s.core.phase == Closed
      && Next(c, s, e).core.phase == Open && Next(c, s, e).core.openSince == e.tripAt
  {
    hide Run, Returned, Trips;
    ErrorsPileUp(c, Start(zeroTime, now), es);
    ResultSays(c, e, true);
    EnoughErrorsTrip(c, Run(c, Start(zeroTime, now), es).core.log + [e.result]);
  }

  lemma EnoughErrorsTrip(c: Config, log: seq<CallResult>)
    requires Normal(c) && c.failureRateThreshold <= 100
    requires AllErrors(log) && |log| == c.minimumNumberOfCalls
    ensures Trips(c, log)
  {
    hide RateReaches;
    BreakerWindow.AllFail(log);
    BreakerWindow.AllReaches(|log|, c.failureRateThreshold);
  }

  /** A new breaker whose calls all return without an error never leaves Closed. */
  lemma NoErrorsStayClosed(c: Config, zeroTime: int, now: int, es: seq<Event>)
    requires Normal(c) && Plain(c) && AllReturned(c, es, false) && Legal(c, Start(zeroTime, now), es)
    ensures Run(c, Start(zeroTime, now), es).core.phase == Closed
  {
    StartGood(c, zeroTime, now);
    forall e | e in es
      ensures (e.Finish? ==> e.result.success == !Failed(c, None)) && e != ForceOpen
    {
      if e.Finish? {
        ResultSays(c, e, false);
      }
    }
    FallbackRuns.ErrorFreeKeepsClosed(c, Start(zeroTime, now), es);
  }

  // ------------------------------------------------------------------ nothing configured

  function Unset(slowCallDuration: int): Config {
    Config(0, 0, 0, 0, slowCallDuration, 0, 0, true, None)
  }

  /** Left to its defaults a closed breaker trips from ten calls on, as soon as half of them failed
      or, if there is a slow-call limit, all of them were slow. */
  lemma DefaultRates(slowCallDuration: int, log: seq<CallResult>)
    requires |log| < TWO_TO_THE_32
    ensures Trips(Normalize(Unset(slowCallDuration)), log)
       <==> |log| >= 10 && (2 * Failures(log) >= |log| || (slowCallDuration > 0 && SlowCalls(log) == |log|))
  {
    CountsAddUp(log);
    HalfAndAll(Failures(log), |log|);
    HalfAndAll(SlowCalls(log), |log|);
    TripsExactly(Normalize(Unset(slowCallDuration)), log);
    hide RateReaches, Trips, Failures, SlowCalls;
  }

  lemma HalfAndAll(part: nat, whole: nat)
    ensures RateReaches(part, whole, 50) <==> 2 * part >= whole
    ensures RateReaches(part, whole, 100) <==> part >= whole
  {
  }

  /** Its life: nine errors leave it closed and the tenth opens it; for a minute it turns every call
      away; then it lets exactly one through, and that call's error opens it again, its success
      closes it. */
  lemma DefaultBreaker(zeroTime: int, now: int, es: seq<Event>, tenth: Event)
    requires var c := Normalize(Unset(0));
      && Legal(c, Start(zeroTime, now), es) && Enabled(c, Run(c, Start(zeroTime, now), es), tenth)
      && AllReturned(c, es, true) && tenth.Finish? && Returned(c, tenth, true)
      && Completions(es) == 9
    ensures var c := Normalize(Unset(0));
      var minute := 60 * 1_000_000_000;
      var closed := Run(c, Start(zeroTime, now), es);
      var tripped := Next(c, closed, tenth);
      var probing := Next(c, tripped, Begin(tenth.tripAt + minute));
      && closed.core.phase == Closed && tripped.core.phase == Open
      && (forall t :: Admits(c, tripped, Begin(t)) <==> t >= tenth.tripAt + minute)
      && (forall t :: ErrorOf(Judge(Lapse(c, probing.core, t))) == Some(TOO_MANY_REQUESTS_ERROR))
      && (forall e: Event :: e.Finish? && Returned(c, e, true) ==> Next(c, probing, e).core.phase == Open)
      && (forall e: Event :: e.Finish? && Returned(c, e, false) ==> Next(c, probing, e).core.phase == Closed)
  {
    var c := Normalize(Unset(0));
    var closed := Run(c, Start(zeroTime, now), es);
    var tripped := Next(c, closed, tenth);
    var at := tenth.tripAt + 60 * 1_000_000_000;
    var probing := Next(c, tripped, Begin(at));
    StartGood(c, zeroTime, now);
    RunGood(c, Start(zeroTime, now), es);
    ErrorsOpen(c, zeroTime, now, es, tenth);
    StepGood(c, closed, tenth);
    StepGood(c, tripped, Begin(at));
    forall t
      ensures Admits(c, tripped, Begin(t)) <==> t >= at
    {
      AdmittedExactly(c, tripped, t);
    }
    forall t
      ensures ErrorOf(Judge(Lapse(c, probing.core, t))) == Some(TOO_MANY_REQUESTS_ERROR)
    {
      AdmittedExactly(c, probing, t);
    }
    forall e: Event, failing: bool | e.Finish? && Returned(c, e, failing)
      ensures Next(c, probing, e).core.phase == if failing then Open else Closed
    {
      ResultSays(c, e, failing);
      HalfOpenDecides(c, probing, e.result, e.began, e.now, e.tripAt);
    }
  }
}
