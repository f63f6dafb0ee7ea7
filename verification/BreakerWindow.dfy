/** What the breaker's threshold test is computed from.

    The window counters are never decremented when the ring buffer overwrites an entry, so rates
    are over all calls since the last clear, not over the last `slidingWindowSize`; and they are
    uint32, so they are exact below 2^32 calls only.  Which configurations that matters for, and
    that it does in runs they can make, is settled below for both departures together. */
module BreakerWindow {
  import opened Naturals
  import opened Widths
  import opened Breakers
  import opened BreakerRuns

  /** In every reachable closed state with fewer than 2^32 calls since the last clear, both rates
      over those calls are below their thresholds once the minimum number of calls is in. */
  lemma ClosedBelowThresholds(c: Config, s: Sys, es: seq<Event>)
    requires Good(c, s) && Legal(c, s, es)
    ensures var end := Run(c, s, es).core;
      end.phase == Closed && |end.log| < TWO_TO_THE_32 ==> !RatesTrip(c, end.log)
  {
    RunGood(c, s, es);
    if |Run(c, s, es).core.log| < TWO_TO_THE_32 {
      TripsExactly(c, Run(c, s, es).core.log);
    }
  }

  /** A finished call trips a closed breaker exactly when the rates over all calls since the last
      clear, this one included, reach a threshold. */
  lemma ClosedDecides(c: Config, s: Sys, r: CallResult, began: int, now: int, tripAt: int)
    requires Good(c, s) && s.core.phase == Closed && |s.core.log| + 1 < TWO_TO_THE_32
    ensures var next := Next(c, s, Finish(r, began, now, tripAt)).core;
      && (next.phase == Open <==> RatesTrip(c, s.core.log + [r]))
      && (next.phase == Open ==> next.log == [] && next.openSince == tripAt)
      && (next.phase != Open ==> next.phase == Closed && next.log == s.core.log + [r])
  {
    TripsExactly(c, s.core.log + [r]);
  }

  // ------------------------------------------------------------------ width of the counters

  /** The uint32 counters are the exact counts exactly below 2^32 calls. */
  lemma CountersExact(log: seq<CallResult>)
    ensures (&& Wrap32(|log|) == |log|
             && Wrap32(Failures(log)) == Failures(log)
             && Wrap32(Successes(log)) == Successes(log)
             && Wrap32(SlowCalls(log)) == SlowCalls(log))
       <==> |log| < TWO_TO_THE_32
  {
    CountsAddUp(log);
  }

  // ------------------------------------------------------------------ the window

  /** The counters are the window's counts exactly while nothing (of their kind) was evicted. */
  lemma WindowCounts(log: seq<CallResult>, window: nat)
    ensures |LastOf(log, window)| == |log| <==> |log| <= window
    ensures |log| > window ==> Failures(log) == Failures(log[..|log| - window]) + Failures(LastOf(log, window))
    ensures |log| > window ==> SlowCalls(log) == SlowCalls(log[..|log| - window]) + SlowCalls(LastOf(log, window))
  {
    if |log| > window {
      CountsSplit(log[..|log| - window], log[|log| - window..]);
      assert log == log[..|log| - window] + log[|log| - window..];
    }
  }

  lemma {:induction false} CountsSplit(a: seq<CallResult>, b: seq<CallResult>)
    ensures Failures(a + b) == Failures(a) + Failures(b)
    ensures SlowCalls(a + b) == SlowCalls(a) + SlowCalls(b)
    decreases |b|
  {
    if b == [] {
      assert a + b == a;
    } else {
      var b', r := b[..|b| - 1], b[|b| - 1];
      CountsSplit(a, b');
      assert b == b' + [r] && a + b == (a + b') + [r];
      AppendCounts(a + b', r);
      AppendCounts(b', r);
    }
  }

  // ------------------------------------------------------------------ histories

  const FINE := CallResult(true, false, 0)
  const FAILING := CallResult(false, false, 0)

  function Repeat(r: CallResult, k: nat): seq<CallResult> {
    seq(k, _ => r)
  }

  lemma {:induction false} RepeatCounts(r: CallResult, k: nat)
    ensures Failures(Repeat(r, k)) == if r.success then 0 else k
    ensures SlowCalls(Repeat(r, k)) == if r.slow then k else 0
  {
    if k > 0 {
      RepeatCounts(r, k - 1);
      AppendCounts(Repeat(r, k - 1), r);
      assert Repeat(r, k) == Repeat(r, k - 1) + [r];
    }
  }

  /** `n` results of one kind, then `m` of another. */
  function Mix(first: CallResult, n: nat, second: CallResult, m: nat): seq<CallResult> {
    Repeat(first, n) + Repeat(second, m)
  }

  lemma MixCounts(first: CallResult, n: nat, second: CallResult, m: nat)
    ensures |Mix(first, n, second, m)| == n + m
    ensures forall r :: r in Mix(first, n, second, m) ==> r == first || r == second
    ensures Failures(Mix(first, n, second, m)) == (if first.success then 0 else n) + (if second.success then 0 else m)
    ensures SlowCalls(Mix(first, n, second, m)) == (if first.slow then n else 0) + (if second.slow then m else 0)
  {
    CountsSplit(Repeat(first, n), Repeat(second, m));
    RepeatCounts(first, n);
    RepeatCounts(second, m);
  }

  lemma MixPrefix(first: CallResult, n: nat, second: CallResult, m: nat, i: nat)
    requires i <= n + m
    ensures Mix(first, n, second, m)[..i] == if i <= n then Mix(first, i, second, 0) else Mix(first, n, second, i - n)
  {
  }

  /** The window on a mix of at least its size. */
  lemma MixLast(first: CallResult, n: nat, second: CallResult, m: nat, window: nat)
    requires m <= window <= n + m
    ensures LastOf(Mix(first, n, second, m), window) == Mix(first, window - m, second, m)
  {
  }

  ghost predicate AllProducible(c: Config, log: seq<CallResult>) {
    forall r :: r in log ==> Producible(c, r)
  }

  /** The same outcomes, at whatever times. */
  ghost predicate Alike(a: seq<CallResult>, b: seq<CallResult>) {
    |a| == |b| && forall i :: 0 <= i < |a| ==> a[i].success == b[i].success && a[i].slow == b[i].slow
  }

  lemma {:induction false} AlikeCounts(a: seq<CallResult>, b: seq<CallResult>)
    requires Alike(a, b)
    ensures Failures(a) == Failures(b) && SlowCalls(a) == SlowCalls(b)
    decreases |a|
  {
    if a != [] {
      AlikeCounts(a[..|a| - 1], b[..|b| - 1]);
    }
  }

  lemma {:induction false} AllSucceed(log: seq<CallResult>)
    requires forall r :: r in log ==> r.success
    ensures Failures(log) == 0
  {
    if log != [] {
      AllSucceed(log[..|log| - 1]);
    }
  }

  lemma {:induction false} AllFail(log: seq<CallResult>)
    requires forall r :: r in log ==> !r.success
    ensures Failures(log) == |log|
  {
    if log != [] {
      AllFail(log[..|log| - 1]);
    }
  }

  lemma {:induction false} NoneSlow(log: seq<CallResult>)
    requires forall r :: r in log ==> !r.slow
    ensures SlowCalls(log) == 0
  {
    if log != [] {
      NoneSlow(log[..|log| - 1]);
    }
  }

  // ------------------------------------------------------------------ rates

  lemma NothingReaches(whole: nat, percent: nat)
    requires percent >= 1
    ensures RateReaches(0, whole, percent) ==> whole == 0
  {
    ProductMonotone(1, percent, whole, whole);
  }

  lemma AllReaches(n: nat, percent: nat)
    requires percent <= 100
    ensures RateReaches(n, n, percent)
  {
    ProductMonotone(percent, 100, n, n);
  }

  lemma AboveHundredNeverReached(part: nat, whole: nat, percent: nat)
    requires part <= whole && whole > 0 && percent > 100
    ensures !RateReaches(part, whole, percent)
  {
    ProductMonotone(101, percent, whole, whole);
  }

  /** Below 2^32 of them no result of this kind can help to reach a threshold. */
  predicate Harmless(c: Config, r: CallResult) {
    && (r.success || c.failureRateThreshold > 100)
    && (!r.slow || c.slowCallDuration <= 0 || c.slowCallRateThreshold > 100)
  }

  lemma HarmlessLog(c: Config, log: seq<CallResult>)
    requires Normal(c) && forall r :: r in log ==> Harmless(c, r)
    ensures !RatesTrip(c, log)
  {
    hide RateReaches;
    CountsAddUp(log);
    if log != [] {
      if c.failureRateThreshold > 100 {
        AboveHundredNeverReached(Failures(log), |log|, c.failureRateThreshold);
      } else {
        AllSucceed(log);
        NothingReaches(|log|, c.failureRateThreshold);
      }
      if c.slowCallRateThreshold > 100 {
        AboveHundredNeverReached(SlowCalls(log), |log|, c.slowCallRateThreshold);
      } else if c.slowCallDuration > 0 {
        NoneSlow(log);
        NothingReaches(|log|, c.slowCallRateThreshold);
      }
    }
  }

  // ------------------------------------------------------------------ runs that leave a history

  ghost predicate NeverTripped(c: Config, log: seq<CallResult>) {
    forall i :: 1 <= i <= |log| ==> !Trips(c, log[..i])
  }

  /** A call that begins now, ends as `r` does and takes no longer than that needs. */
  function EndOf(c: Config, s: Sys, r: CallResult): Event {
    var end := s.clock + LeastDuration(c, r);
    Finish(r.(time := end), s.clock, end, end)
  }

  lemma BeginStep(c: Config, s: Sys, r: CallResult)
    requires s.core.phase == Closed && Producible(c, r)
    ensures var t := Next(c, s, Begin(s.clock));
      && Enabled(c, s, Begin(s.clock)) && t.core == s.core && t.clock == s.clock
      && Enabled(c, t, EndOf(c, s, r))
  {
    MeasuredExactly(c, EndOf(c, s, r).result, LeastDuration(c, r));
    hide Measured;
  }

  lemma EndStep(c: Config, s: Sys, t: Sys, r: CallResult)
    requires t.core.phase == Closed
    ensures var e := EndOf(c, s, r);
      && (Next(c, t, e).core.phase == Open <==> Trips(c, t.core.log + [e.result]))
      && (!Trips(c, t.core.log + [e.result]) ==>
            Next(c, t, e).core.phase == Closed && Next(c, t, e).core.log == t.core.log + [e.result])
  {
    hide Trips, LeastDuration;
  }

  lemma TwoSteps(c: Config, s: Sys, a: Event, b: Event)
    requires Enabled(c, s, a) && Enabled(c, Next(c, s, a), b)
    ensures Legal(c, s, [a]) && Run(c, s, [a]) == Next(c, s, a)
    ensures Legal(c, s, [a, b]) && Run(c, s, [a, b]) == Next(c, Next(c, s, a), b)
  {
    hide Enabled, Next;
    var t := Next(c, s, a);
    var u := Next(c, t, b);
    assert [a][1..] == [] && [a, b][1..] == [b] && [b][1..] == [];
    assert Legal(c, t, []) && Run(c, t, []) == t;
    assert Legal(c, u, []) && Run(c, u, []) == u;
    assert Legal(c, t, [b]) && Run(c, t, [b]) == u;
  }

  lemma AlikeTrips(c: Config, a: seq<CallResult>, b: seq<CallResult>)
    requires Alike(a, b)
    ensures Trips(c, a) <==> Trips(c, b)
    ensures RatesTrip(c, a) <==> RatesTrip(c, b)
  {
    AlikeCounts(a, b);
  }

  /** One more call, from its beginning to its end. */
  lemma OneMoreCall(c: Config, s: Sys, before: seq<CallResult>, r: CallResult)
    requires s.core.phase == Closed && Alike(s.core.log, before) && Producible(c, r)
    ensures var b, e := Begin(s.clock), EndOf(c, s, r);
      var t := Run(c, s, [b]);
      && Legal(c, s, [b]) && t.core.phase == Closed && Enabled(c, t, e)
      && Alike(t.core.log + [e.result], before + [r])
      && (Next(c, t, e).core.phase == Open <==> Trips(c, before + [r]))
    ensures var es := [Begin(s.clock), EndOf(c, s, r)];
      && Legal(c, s, es)
      && (!Trips(c, before + [r]) ==> Run(c, s, es).core.phase == Closed && Alike(Run(c, s, es).core.log, before + [r]))
  {
    hide Trips, Next, Enabled, LeastDuration, Producible;
    BeginStep(c, s, r);
    var t := Next(c, s, Begin(s.clock));
    EndStep(c, s, t, r);
    TwoSteps(c, s, Begin(s.clock), EndOf(c, s, r));
    AlikeTrips(c, t.core.log + [EndOf(c, s, r).result], before + [r]);
  }

  /** Outcomes that the configuration can produce, and no first part of which trips the breaker, are
      those of its log after a run. */
  lemma {:induction false} FeedRuns(c: Config, kinds: seq<CallResult>) returns (es: seq<Event>)
    requires Normal(c) && AllProducible(c, kinds) && NeverTripped(c, kinds)
    ensures var s := Run(c, Start(0, 0), es);
      Legal(c, Start(0, 0), es) && s.core.phase == Closed && Alike(s.core.log, kinds)
    decreases |kinds|
  {
    hide Trips, Next, Enabled, Producible, Normal;
    es := [];
    if kinds != [] {
      var before, r := kinds[..|kinds| - 1], kinds[|kinds| - 1];
      forall i | 1 <= i <= |before|
        ensures !Trips(c, before[..i])
      {
        assert before[..i] == kinds[..i];
      }
      var first := FeedRuns(c, before);
      hide Run, Legal, EndOf;
      var s := Run(c, Start(0, 0), first);
      OneMoreCall(c, s, before, r);
      assert kinds[..|kinds|] == kinds == before + [r];
      RunsCompose(c, Start(0, 0), first, [Begin(s.clock), EndOf(c, s, r)]);
      es := first + [Begin(s.clock), EndOf(c, s, r)];
    }
  }

  // ------------------------------------------------------------------ misjudged calls

  /** What a decision could be made on: all calls since the last clear, or the last of them. */
  datatype View = Whole | Last(size: nat)

  function Seen(v: View, log: seq<CallResult>): seq<CallResult> {
    match v
    case Whole => log
    case Last(size) => LastOf(log, size)
  }

  /** What the exact rates over what is seen decide. */
  predicate Judges(c: Config, v: View, log: seq<CallResult>) {
    RatesTrip(c, Seen(v, log))
  }

  /** After the run `es` a finishing call finds the breaker closed, and the breaker decides about it
      differently from the exact rates over what is seen. */
  ghost predicate Misjudges(c: Config, v: View, es: seq<Event>, e: Event) {
    var s := Run(c, Start(0, 0), es);
    && Legal(c, Start(0, 0), es) && s.core.phase == Closed
    && e.Finish? && Enabled(c, s, e)
    && (Next(c, s, e).core.phase == Open) != Judges(c, v, s.core.log + [e.result])
  }

  /** Calls since the last clear when that call is in. */
  function CallsAt(c: Config, es: seq<Event>): nat {
    |Run(c, Start(0, 0), es).core.log| + 1
  }

  lemma AlikeJudged(c: Config, v: View, a: seq<CallResult>, b: seq<CallResult>)
    requires Alike(a, b)
    ensures Judges(c, v, a) <==> Judges(c, v, b)
  {
    AlikeTrips(c, Seen(v, a), Seen(v, b));
  }

  /** If breaker and exact rates disagree about a history, the last call of a run that leaves it is
      misjudged. */
  lemma MisjudgedLast(c: Config, v: View, before: seq<CallResult>, r: CallResult) returns (es: seq<Event>, e: Event)
    requires Normal(c) && AllProducible(c, before) && Producible(c, r) && NeverTripped(c, before)
    requires Trips(c, before + [r]) != Judges(c, v, before + [r])
    ensures Misjudges(c, v, es, e) && CallsAt(c, es) == |before| + 1
  {
    var first := FeedRuns(c, before);
    hide Trips, Next, Enabled, LeastDuration, Judges, Run, Legal;
    var s := Run(c, Start(0, 0), first);
    OneMoreCall(c, s, before, r);
    es, e := first + [Begin(s.clock)], EndOf(c, s, r);
    RunsCompose(c, Start(0, 0), first, [Begin(s.clock)]);
    AlikeJudged(c, v, Run(c, s, [Begin(s.clock)]).core.log + [e.result], before + [r]);
  }

  /** On a history about which they disagree, and whose first parts the exact rates do not condemn,
      some call of a run is misjudged. */
  lemma {:induction false} Disagreement(c: Config, v: View, log: seq<CallResult>, i: nat)
    returns (es: seq<Event>, e: Event)
    requires Normal(c) && AllProducible(c, log) && 1 <= i <= |log|
    requires forall j :: 0 <= j < |log| ==> !Judges(c, v, log[..j])
    requires Trips(c, log) != Judges(c, v, log)
    requires forall j :: 1 <= j < i ==> !Trips(c, log[..j])
    ensures Misjudges(c, v, es, e) && CallsAt(c, es) <= |log|
    decreases |log| - i
  {
    hide Trips, Judges, Producible, Misjudges;
    assert log[..|log|] == log;
    if Trips(c, log[..i]) == Judges(c, v, log[..i]) {
      es, e := Disagreement(c, v, log, i + 1);
    } else {
      var before, r := log[..i - 1], log[i - 1];
      forall j | 1 <= j <= |before|
        ensures !Trips(c, before[..j])
      {
        assert before[..j] == log[..j];
      }
      assert before + [r] == log[..i];
      es, e := MisjudgedLast(c, v, before, r);
    }
  }

  // ------------------------------------------------------------------ what can be misjudged

  /** Two outcomes that the configuration can produce and of which only the bad one counts towards a
      threshold that can be reached. */
  ghost predicate Pair(c: Config, good: CallResult, bad: CallResult) {
    && Producible(c, good) && Producible(c, bad) && !good.slow
    && if bad.slow then bad.success == good.success && (good.success || c.failureRateThreshold > 100)
       else good.success && !bad.success
  }

  /** The threshold that bad calls count towards. */
  function Percent(c: Config, bad: CallResult): nat {
    if bad.slow then c.slowCallRateThreshold else c.failureRateThreshold
  }

  /** The log consists of `g` good and `k` bad calls. */
  ghost predicate Tallies(log: seq<CallResult>, good: CallResult, bad: CallResult, g: nat, k: nat) {
    && |log| == g + k
    && Failures(log) == (if good.success then 0 else g) + (if bad.success then 0 else k)
    && SlowCalls(log) == if bad.slow then k else 0
  }

  lemma PairRates(c: Config, good: CallResult, bad: CallResult, log: seq<CallResult>, g: nat, k: nat)
    requires Normal(c) && Pair(c, good, bad) && Tallies(log, good, bad, g, k)
    ensures RatesTrip(c, log) <==> g + k >= c.minimumNumberOfCalls && RateReaches(k, g + k, Percent(c, bad))
  {
    hide RateReaches, Failures, SlowCalls, CanFail, CanSucceed;
    NothingReaches(g + k, c.slowCallRateThreshold);
    NothingReaches(g + k, c.failureRateThreshold);
    if g + k > 0 && c.failureRateThreshold > 100 {
      AboveHundredNeverReached(g + k, g + k, c.failureRateThreshold);
    }
  }

  lemma PairTrips(c: Config, good: CallResult, bad: CallResult, log: seq<CallResult>, g: nat, k: nat)
    requires Normal(c) && Pair(c, good, bad) && Tallies(log, good, bad, g, k)
    ensures Trips(c, log) <==>
              Wrap32(g + k) >= c.minimumNumberOfCalls && RateReaches(Wrap32(k), Wrap32(g + k), Percent(c, bad))
  {
    hide RateReaches, Failures, SlowCalls, CanFail, CanSucceed;
    var calls := Wrap32(g + k);
    NothingReaches(calls, c.slowCallRateThreshold);
    NothingReaches(calls, c.failureRateThreshold);
    if calls > 0 && c.failureRateThreshold > 100 {
      AboveHundredNeverReached(calls, calls, c.failureRateThreshold);
    }
  }

  lemma GoodThenBad(c: Config, good: CallResult, bad: CallResult, g: nat, k: nat)
    requires Pair(c, good, bad)
    ensures Tallies(Mix(good, g, bad, k), good, bad, g, k) && AllProducible(c, Mix(good, g, bad, k))
    ensures Tallies(Mix(bad, k, good, g), good, bad, g, k) && AllProducible(c, Mix(bad, k, good, g))
  {
    MixCounts(good, g, bad, k);
    MixCounts(bad, k, good, g);
  }

  /** The least number of bad calls with which a full window reaches a threshold. */
  lemma Least(percent: nat, window: nat) returns (f: nat)
    requires 1 <= percent <= 100 && window >= 1
    ensures 1 <= f <= window
    ensures !RateReaches(f - 1, window, percent) && RateReaches(f, window, percent)
  {
    var p := percent * window;
    ProductMonotone(1, percent, window, window);
    ProductMonotone(percent, 100, window, window);
    f := (p + 99) / 100;
  }

  /** With a window of at least the minimum: good calls, then just enough bad ones for the window.
      `n` calls in all, so many that the counters see a lower rate, or have wrapped to zero. */
  lemma DilutedDisagreement(c: Config, w: nat, good: CallResult, bad: CallResult, n: nat)
    returns (es: seq<Event>, e: Event)
    requires Normal(c) && Pair(c, good, bad) && Percent(c, bad) <= 100
    requires c.minimumNumberOfCalls <= w < TWO_TO_THE_32
    requires n == TWO_TO_THE_32 || w + 100 == n < TWO_TO_THE_32
    ensures Misjudges(c, Last(w), es, e) && CallsAt(c, es) <= n
  {
    var p := Percent(c, bad);
    var f := Least(p, w);
    var log := Mix(good, n - f, bad, f);
    GoodThenBad(c, good, bad, n - f, f);
    DilutedDecision(c, w, good, bad, n, f);
    forall i | 0 <= i < n
      ensures !Judges(c, Last(w), log[..i])
    {
      WindowOnDiluted(c, w, good, bad, n, f, i);
    }
    hide Mix, Judges, Trips, Misjudges;
    es, e := Disagreement(c, Last(w), log, 1);
  }

  lemma DilutedDecision(c: Config, w: nat, good: CallResult, bad: CallResult, n: nat, f: nat)
    requires Normal(c) && Pair(c, good, bad) && Percent(c, bad) <= 100
    requires c.minimumNumberOfCalls <= w < TWO_TO_THE_32
    requires n == TWO_TO_THE_32 || w + 100 == n < TWO_TO_THE_32
    requires 1 <= f <= w && !RateReaches(f - 1, w, Percent(c, bad)) && RateReaches(f, w, Percent(c, bad))
    ensures Judges(c, Last(w), Mix(good, n - f, bad, f)) && !Trips(c, Mix(good, n - f, bad, f))
  {
    hide RateReaches, Mix, Tallies, Pair, RatesTrip;
    var log := Mix(good, n - f, bad, f);
    MixLast(good, n - f, bad, f, w);
    GoodThenBad(c, good, bad, w - f, f);
    PairRates(c, good, bad, Mix(good, w - f, bad, f), w - f, f);
    GoodThenBad(c, good, bad, n - f, f);
    PairTrips(c, good, bad, log, n - f, f);
    hide Trips, Percent;
    if n < TWO_TO_THE_32 {
      Diluted(Percent(c, bad), w, f);
    }
  }

  lemma Diluted(p: nat, w: nat, f: nat)
    requires 1 <= p && 1 <= f && !RateReaches(f - 1, w, p)
    ensures !RateReaches(f, w + 100, p)
  {
    assert p * (w + 100) == p * w + 100 * p;
  }

  lemma WindowOnDiluted(c: Config, w: nat, good: CallResult, bad: CallResult, n: nat, f: nat, i: nat)
    requires Normal(c) && Pair(c, good, bad) && Percent(c, bad) <= 100
    requires 1 <= f <= w < n && i < n
    requires !RateReaches(f - 1, w, Percent(c, bad))
    ensures !Judges(c, Last(w), Mix(good, n - f, bad, f)[..i])
  {
    hide Mix, RatesTrip, RateReaches, Tallies, Pair;
    MixCounts(good, n - f, bad, f);
    MixPrefix(good, n - f, bad, f, i);
    var g, k: nat := if i <= n - f then i else n - f, if i <= n - f then 0 else i - (n - f);
    assert Mix(good, n - f, bad, f)[..i] == Mix(good, g, bad, k);
    WindowOnMix(c, w, good, bad, g, k);
    PercentPositive(c, bad);
    hide Percent, Normal, Judges;
    StillTooFew(Percent(c, bad), w, n, f, i, k);
  }

  lemma WindowOnMix(c: Config, w: nat, good: CallResult, bad: CallResult, g: nat, k: nat)
    requires Normal(c) && Pair(c, good, bad) && k <= w
    ensures var n := if g + k >= w then w else g + k;
      Judges(c, Last(w), Mix(good, g, bad, k)) <==> n >= c.minimumNumberOfCalls && RateReaches(k, n, Percent(c, bad))
  {
    hide Mix, RatesTrip, RateReaches, Tallies, Pair, Percent;
    MixCounts(good, g, bad, k);
    if g + k >= w {
      MixLast(good, g, bad, k, w);
      GoodThenBad(c, good, bad, w - k, k);
      PairRates(c, good, bad, Mix(good, w - k, bad, k), w - k, k);
    } else {
      GoodThenBad(c, good, bad, g, k);
      PairRates(c, good, bad, Mix(good, g, bad, k), g, k);
    }
  }

  lemma PercentPositive(c: Config, bad: CallResult)
    requires Normal(c)
    ensures Percent(c, bad) >= 1 && c.minimumNumberOfCalls >= 1
  {
  }

  /** Short of the last call the bad ones are too few, in a window not yet full as in a full one. */
  lemma StillTooFew(p: nat, w: nat, n: nat, f: nat, i: nat, k: nat)
    requires 1 <= p <= 100 && 1 <= f <= w < n && i < n && !RateReaches(f - 1, w, p)
    requires k == if i <= n - f then 0 else i - (n - f)
    ensures i >= w ==> !RateReaches(k, w, p)
    ensures 0 < i < w ==> !RateReaches(k, i, p)
  {
    if i < w {
      if i > 0 {
        NothingReaches(i, p);
      }
      NotFull(p, w, i);
    }
    var atWindow, atPart := p * w, p * i;
    assert RateReaches(k, w, p) <==> 100 * k >= atWindow;
    assert RateReaches(k, i, p) <==> 100 * k >= atPart;
  }

  lemma NotFull(p: nat, w: nat, i: nat)
    requires p <= 100 && i <= w
    ensures p * w <= p * i + 100 * (w - i)
  {
    assert (100 - p) * (w - i) >= 0;
    assert (100 - p) * (w - i) == 100 * w - 100 * i - p * w + p * i;
  }

  /** Bad calls alone trip the breaker. */
  ghost predicate Damning(c: Config, bad: CallResult) {
    || (bad.slow && c.slowCallDuration > 0 && c.slowCallRateThreshold <= 100)
    || (!bad.success && c.failureRateThreshold <= 100)
  }

  /** With a window below the minimum, which can never trip: just enough bad calls. */
  lemma ShortWindowDisagreement(c: Config, w: nat, bad: CallResult) returns (es: seq<Event>, e: Event)
    requires Normal(c) && Producible(c, bad) && Damning(c, bad) && w < c.minimumNumberOfCalls
    ensures Misjudges(c, Last(w), es, e) && CallsAt(c, es) < TWO_TO_THE_32
  {
    var min := c.minimumNumberOfCalls;
    var log := Repeat(bad, min);
    RepeatCounts(bad, min);
    AllReaches(min, c.failureRateThreshold % 101);
    AllReaches(min, c.slowCallRateThreshold % 101);
    assert RatesTrip(c, log);
    TripsExactly(c, log);
    hide RatesTrip, Trips;
    forall i | 0 <= i <= |log|
      ensures !Judges(c, Last(w), log[..i])
    {
      ShortWindow(c, w, log[..i]);
    }
    assert log[..|log|] == log;
    es, e := Disagreement(c, Last(w), log, 1);
  }

  lemma ShortWindow(c: Config, w: nat, log: seq<CallResult>)
    requires w < c.minimumNumberOfCalls
    ensures !Judges(c, Last(w), log)
  {
  }

  lemma OnceRound(min: nat)
    requires min < TWO_TO_THE_32
    ensures Wrap32(min + 1 + (TWO_TO_THE_32 - 1)) == min && Wrap32(TWO_TO_THE_32 - 1) == TWO_TO_THE_32 - 1
  {
  }

  lemma PairHarmless(c: Config, good: CallResult, bad: CallResult)
    requires Normal(c) && Pair(c, good, bad) && Percent(c, bad) > 100
    ensures Harmless(c, good) && Harmless(c, bad) && 1 <= c.minimumNumberOfCalls < TWO_TO_THE_32
  {
  }

  lemma WrappedTrips(c: Config, good: CallResult, bad: CallResult)
    requires Normal(c) && Pair(c, good, bad) && Percent(c, bad) > 100 && WithinReach(c, Percent(c, bad))
    ensures var log := Mix(bad, TWO_TO_THE_32 - 1, good, c.minimumNumberOfCalls + 1);
      && log != [] && AllProducible(c, log) && Trips(c, log) && forall r :: r in log ==> Harmless(c, r)
  {
    var n, min := TWO_TO_THE_32, c.minimumNumberOfCalls;
    var log := Mix(bad, n - 1, good, min + 1);
    PairHarmless(c, good, bad);
    OnceRound(min);
    hide Wrap32, RateReaches, Mix, Trips, Tallies, Pair, Harmless, Percent, Normal;
    GoodThenBad(c, good, bad, min + 1, n - 1);
    MixCounts(bad, n - 1, good, min + 1);
    PairTrips(c, good, bad, log, min + 1, n - 1);
  }

  /** With a threshold above 100, which no exact rate reaches: as many bad calls as a counter can
      show, then good ones until the call counter shows the minimum. */
  lemma WrappedDisagreement(c: Config, v: View, good: CallResult, bad: CallResult) returns (es: seq<Event>, e: Event)
    requires Normal(c) && Pair(c, good, bad) && Percent(c, bad) > 100 && WithinReach(c, Percent(c, bad))
    ensures Misjudges(c, v, es, e)
  {
    var n, min := TWO_TO_THE_32, c.minimumNumberOfCalls;
    var log := Mix(bad, n - 1, good, min + 1);
    WrappedTrips(c, good, bad);
    hide Mix, Trips, RatesTrip, Misjudges, Pair, Producible, Normal;
    forall i | 0 <= i <= |log|
      ensures !Judges(c, v, log[..i])
    {
      HarmlessLog(c, Seen(v, log[..i]));
    }
    assert log[..|log|] == log;
    es, e := Disagreement(c, v, log, 1);
  }

  lemma MisfiringTrips(c: Config, good: CallResult, bad: CallResult)
    requires Normal(c) && Pair(c, good, bad) && Percent(c, bad) <= 100
    ensures var log := Mix(good, 100 * TWO_TO_THE_32, bad, c.minimumNumberOfCalls);
      && |log| == 100 * TWO_TO_THE_32 + c.minimumNumberOfCalls >= 1 && AllProducible(c, log) && Trips(c, log)
  {
    hide RateReaches, Mix, Trips, Tallies, Pair;
    var n, min := 100 * TWO_TO_THE_32, c.minimumNumberOfCalls;
    var log := Mix(good, n, bad, min);
    GoodThenBad(c, good, bad, n, min);
    MixCounts(good, n, bad, min);
    PairTrips(c, good, bad, log, n, min);
    AllReaches(min, Percent(c, bad));
    PercentPositive(c, bad);
    assert Wrap32(n + min) == min == Wrap32(min);
  }

  /** With a threshold of at most 100: so many good calls that the counters wrap a hundred times, then
      just enough bad ones to count. */
  lemma MisfiringDisagreement(c: Config, good: CallResult, bad: CallResult) returns (es: seq<Event>, e: Event)
    requires Normal(c) && Pair(c, good, bad) && Percent(c, bad) <= 100
    ensures Misjudges(c, Whole, es, e)
  {
    var n, min := 100 * TWO_TO_THE_32, c.minimumNumberOfCalls;
    var log := Mix(good, n, bad, min);
    MisfiringTrips(c, good, bad);
    hide Mix, Trips, Judges, Misjudges, Pair, Normal, Percent;
    forall i | 0 <= i <= |log|
      ensures !Judges(c, Whole, log[..i])
    {
      FewAmongMany(c, good, bad, i);
    }
    assert log[..|log|] == log;
    es, e := Disagreement(c, Whole, log, 1);
  }

  lemma FewAmongMany(c: Config, good: CallResult, bad: CallResult, i: nat)
    requires Normal(c) && Pair(c, good, bad)
    requires i <= 100 * TWO_TO_THE_32 + c.minimumNumberOfCalls
    ensures !Judges(c, Whole, Mix(good, 100 * TWO_TO_THE_32, bad, c.minimumNumberOfCalls)[..i])
  {
    hide Mix, RatesTrip, RateReaches, Tallies, Pair;
    var n, min := 100 * TWO_TO_THE_32, c.minimumNumberOfCalls;
    MixCounts(good, n, bad, min);
    MixPrefix(good, n, bad, min, i);
    var g, k: nat := if i <= n then i else n, if i <= n then 0 else i - n;
    GoodThenBad(c, good, bad, g, k);
    PairRates(c, good, bad, Mix(good, g, bad, k), g, k);
    PercentPositive(c, bad);
    NothingReaches(g + k, Percent(c, bad));
    if k > 0 {
      FewDoNotReach(k, g + k, Percent(c, bad));
    }
  }

  lemma FewDoNotReach(part: nat, whole: nat, percent: nat)
    requires percent >= 1 && 100 * part < whole
    ensures !RateReaches(part, whole, percent)
  {
    ProductMonotone(1, percent, whole, whole);
  }

  // ------------------------------------------------------------------ what cannot

  /** Every call fails, and that trips the breaker: no history grows past the minimum. */
  ghost predicate AlwaysFails(c: Config) {
    !CanSucceed(c) && c.failureRateThreshold <= 100
  }

  ghost predicate Ordinary(c: Config, s: Sys) {
    && AllProducible(c, s.core.log)
    && (AlwaysFails(c) && s.core.phase == Closed ==> |s.core.log| < c.minimumNumberOfCalls)
  }

  /** Where every call fails the breaker trips exactly when the minimum is in. */
  lemma AlwaysFailsTrips(c: Config, log: seq<CallResult>)
    requires Normal(c) && AlwaysFails(c) && AllProducible(c, log) && |log| <= c.minimumNumberOfCalls
    ensures Trips(c, log) <==> |log| == c.minimumNumberOfCalls
    ensures RatesTrip(c, log) <==> |log| == c.minimumNumberOfCalls
  {
    AllFail(log);
    AllReaches(|log|, c.failureRateThreshold);
    TripsExactly(c, log);
    hide RateReaches;
  }

  lemma StepOrdinary(c: Config, s: Sys, e: Event)
    requires Good(c, s) && Ordinary(c, s) && Enabled(c, s, e)
    ensures Ordinary(c, Next(c, s, e))
  {
    if e.Finish? {
      MeasuredExactly(c, e.result, e.now - e.began);
      var log := s.core.log + [e.result];
      if AlwaysFails(c) && s.core.phase == Closed {
        AlwaysFailsTrips(c, log);
      }
    }
    hide Trips, Failures, Successes, SlowCalls, Measured, BegunBy, InFlightAfter, CanSucceed, CanFail;
  }

  lemma {:induction false} RunOrdinary(c: Config, s: Sys, es: seq<Event>)
    requires Good(c, s) && Ordinary(c, s) && Legal(c, s, es)
    ensures Ordinary(c, Run(c, s, es))
    decreases |es|
  {
    hide Next, Good, Ordinary, Enabled;
    if es != [] {
      StepOrdinary(c, s, es[0]);
      StepGood(c, s, es[0]);
      RunOrdinary(c, Next(c, s, es[0]), es[1..]);
    }
  }

  /** Some producible history makes the counters reach a threshold other than rightly at once. */
  ghost predicate Fallible(c: Config) {
    || (CanFail(c) && CanSucceed(c) && WithinReach(c, c.failureRateThreshold))
    || (c.slowCallDuration > 0 && WithinReach(c, c.slowCallRateThreshold)
        && (CanSucceed(c) || c.failureRateThreshold > 100))
  }

  /** Likewise without help from wrapping. */
  ghost predicate EarlyFallible(c: Config) {
    || (CanFail(c) && CanSucceed(c) && c.failureRateThreshold <= 100)
    || (c.slowCallDuration > 0 && c.slowCallRateThreshold <= 100 && (CanSucceed(c) || c.failureRateThreshold > 100))
  }

  lemma HundredWithinReach(c: Config, percent: nat)
    requires Normal(c) && !WithinReach(c, percent)
    ensures percent > 100
  {
    OutOfReach(c, 0, 0, percent);
  }

  lemma ProducibleHarmless(c: Config, r: CallResult)
    requires Normal(c) && !EarlyFallible(c) && !AlwaysFails(c) && Producible(c, r)
    ensures Harmless(c, r)
  {
  }

  lemma InfallibleNeverTrips(c: Config, log: seq<CallResult>)
    requires Normal(c) && !Fallible(c) && !AlwaysFails(c) && AllProducible(c, log)
    ensures !Trips(c, log)
  {
    hide RateReaches;
    var calls := Wrap32(|log|);
    if calls >= c.minimumNumberOfCalls {
      if !CanFail(c) {
        AllSucceed(log);
        NothingReaches(calls, c.failureRateThreshold);
      } else if !CanSucceed(c) {
        AllFail(log);
        AboveHundredNeverReached(calls, calls, c.failureRateThreshold);
      } else {
        OutOfReach(c, Failures(log), calls, c.failureRateThreshold);
      }
      if c.slowCallDuration > 0 {
        OutOfReach(c, SlowCalls(log), calls, c.slowCallRateThreshold);
      }
    }
  }

  lemma FallibleEarlyOrLate(c: Config)
    requires Normal(c) && EarlyFallible(c)
    ensures Fallible(c)
  {
    if !WithinReach(c, c.failureRateThreshold) {
      HundredWithinReach(c, c.failureRateThreshold);
    }
    if !WithinReach(c, c.slowCallRateThreshold) {
      HundredWithinReach(c, c.slowCallRateThreshold);
    }
  }

  /** What is seen of a short history is all of it. */
  ghost predicate SeesMinimum(c: Config, v: View) {
    v.Last? ==> c.minimumNumberOfCalls <= v.size
  }

  lemma AlwaysFailsAgrees(c: Config, v: View, log: seq<CallResult>)
    requires Normal(c) && AlwaysFails(c) && AllProducible(c, log) && |log| <= c.minimumNumberOfCalls
    requires SeesMinimum(c, v)
    ensures Judges(c, v, log) == Trips(c, log)
  {
    AlwaysFailsTrips(c, log);
    assert Seen(v, log) == log;
  }

  lemma NothingMisjudged(c: Config, v: View, es: seq<Event>, e: Event)
    requires Normal(c) && Misjudges(c, v, es, e)
    ensures Fallible(c) || (AlwaysFails(c) && !SeesMinimum(c, v))
    ensures CallsAt(c, es) < TWO_TO_THE_32 ==> EarlyFallible(c) || (AlwaysFails(c) && !SeesMinimum(c, v))
  {
    var s := Run(c, Start(0, 0), es);
    StartGood(c, 0, 0);
    RunOrdinary(c, Start(0, 0), es);
    var log := s.core.log + [e.result];
    MeasuredExactly(c, e.result, e.now - e.began);
    assert AllProducible(c, log);
    assert (Next(c, s, e).core.phase == Open) == Trips(c, log);
    if AlwaysFails(c) {
      if SeesMinimum(c, v) {
        AlwaysFailsAgrees(c, v, log);
      }
    } else if !EarlyFallible(c) {
      AgreesEarly(c, v, log);
      if !Fallible(c) {
        InfallibleNeverTrips(c, log);
      }
    } else {
      FallibleEarlyOrLate(c);
    }
  }

  lemma AgreesEarly(c: Config, v: View, log: seq<CallResult>)
    requires Normal(c) && !EarlyFallible(c) && !AlwaysFails(c) && AllProducible(c, log)
    ensures !Judges(c, v, log)
    ensures |log| < TWO_TO_THE_32 ==> !Trips(c, log)
  {
    forall r | r in log
      ensures Harmless(c, r)
    {
      ProducibleHarmless(c, r);
    }
    HarmlessLog(c, log);
    HarmlessLog(c, Seen(v, log));
    if |log| < TWO_TO_THE_32 {
      TripsExactly(c, log);
    }
  }

  // ------------------------------------------------------------------ exactly when

  /** A pair that shows a fallible configuration at fault. */
  lemma FallibleBy(c: Config) returns (good: CallResult, bad: CallResult)
    requires Normal(c) && Fallible(c)
    ensures Pair(c, good, bad) && WithinReach(c, Percent(c, bad))
    ensures EarlyFallible(c) ==> Percent(c, bad) <= 100
  {
    hide RateReaches;
    if CanFail(c) && CanSucceed(c) && WithinReach(c, c.failureRateThreshold)
       && (EarlyFallible(c) ==> c.failureRateThreshold <= 100) {
      good, bad := FINE, FAILING;
    } else {
      SomeOutcome(c);
      good := if CanSucceed(c) then FINE else FAILING;
      bad := good.(slow := true);
      if !WithinReach(c, c.failureRateThreshold) {
        HundredWithinReach(c, c.failureRateThreshold);
      }
      if !WithinReach(c, c.slowCallRateThreshold) {
        HundredWithinReach(c, c.slowCallRateThreshold);
      }
    }
  }

  lemma PairIsDamning(c: Config, good: CallResult, bad: CallResult)
    requires Pair(c, good, bad) && Percent(c, bad) <= 100
    ensures Damning(c, bad)
  {
  }

  /** The wrapping counters.  The breaker decides at every call of every run by the exact rates over
      all calls since the last clear, except for configurations with an outcome that counts towards
      a threshold within the counters' reach beside one that does not. */
  lemma WrappedCountersMisfire(c: Config)
    requires Normal(c)
    ensures (exists es, e :: Misjudges(c, Whole, es, e)) <==> Fallible(c)
  {
    if Fallible(c) {
      var good, bad := FallibleBy(c);
      if Percent(c, bad) <= 100 {
        var es, e := MisfiringDisagreement(c, good, bad);
      } else {
        var es, e := WrappedDisagreement(c, Whole, good, bad);
      }
    }
    forall es, e | Misjudges(c, Whole, es, e)
      ensures Fallible(c)
    {
      NothingMisjudged(c, Whole, es, e);
    }
  }

  /** The window.  The breaker decides at every call of every run as its sliding window would, except
      for those configurations, and for those in which every call fails and the window is too small
      ever to hold the minimum. */
  lemma WindowIsIgnored(c: Config)
    requires Normal(c) && c.countWindow
    ensures (exists es, e :: Misjudges(c, Last(c.slidingWindowSize), es, e))
       <==> Fallible(c) || (AlwaysFails(c) && c.slidingWindowSize < c.minimumNumberOfCalls)
  {
    var w := c.slidingWindowSize;
    if Fallible(c) {
      var good, bad := FallibleBy(c);
      if Percent(c, bad) > 100 {
        var es, e := WrappedDisagreement(c, Last(w), good, bad);
      } else if c.minimumNumberOfCalls <= w {
        var es, e := DilutedDisagreement(c, w, good, bad, TWO_TO_THE_32);
      } else {
        PairIsDamning(c, good, bad);
        var es, e := ShortWindowDisagreement(c, w, bad);
      }
    } else if AlwaysFails(c) && w < c.minimumNumberOfCalls {
      SomeOutcome(c);
      var es, e := ShortWindowDisagreement(c, w, FAILING);
    }
    forall es, e | Misjudges(c, Last(w), es, e)
      ensures Fallible(c) || (AlwaysFails(c) && w < c.minimumNumberOfCalls)
    {
      NothingMisjudged(c, Last(w), es, e);
    }
  }

  /** That is no matter of wrapped counters: unless the window is within a hundred of 2^32, they
      disagree already in a run with fewer than 2^32 calls since the last clear, wherever a threshold
      of at most 100 per cent is at stake. */
  lemma WindowIsIgnoredEarly(c: Config)
    requires Normal(c) && c.countWindow && c.slidingWindowSize + 100 < TWO_TO_THE_32
    ensures (exists es, e :: Misjudges(c, Last(c.slidingWindowSize), es, e) && CallsAt(c, es) < TWO_TO_THE_32)
       <==> EarlyFallible(c) || (AlwaysFails(c) && c.slidingWindowSize < c.minimumNumberOfCalls)
  {
    var w := c.slidingWindowSize;
    if EarlyFallible(c) {
      FallibleEarlyOrLate(c);
      var good, bad := FallibleBy(c);
      if c.minimumNumberOfCalls <= w {
        var es, e := DilutedDisagreement(c, w, good, bad, w + 100);
      } else {
        PairIsDamning(c, good, bad);
        var es, e := ShortWindowDisagreement(c, w, bad);
      }
    } else if AlwaysFails(c) && w < c.minimumNumberOfCalls {
      SomeOutcome(c);
      var es, e := ShortWindowDisagreement(c, w, FAILING);
    }
    forall es, e | Misjudges(c, Last(w), es, e) && CallsAt(c, es) < TWO_TO_THE_32
      ensures EarlyFallible(c) || (AlwaysFails(c) && w < c.minimumNumberOfCalls)
    {
      NothingMisjudged(c, Last(w), es, e);
    }
  }
}
