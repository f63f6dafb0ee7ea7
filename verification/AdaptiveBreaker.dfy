/** The adaptive breaker object of internal/breaker/adaptive.go around an inner CircuitBreaker.

    `completions`, `window`, `rates` and `latencies` are ghost: the calls recorded since Reset, those recorded
    since the last update of the averages, and the failure rates and mean latencies of the updates
    so far. */
module AdaptiveBreakers {
  import opened Breakers
  import opened CircuitBreakers
  import opened Adaptives
  import opened Reals
  import opened Widths
  import opened AdaptiveRuns

  datatype AdaptiveConfig = AdaptiveConfig(
    base: Config,
    failureRateEMAAlpha: real,
    latencyEMAAlpha: real,
    minFailureRateThreshold: real,
    maxFailureRateThreshold: real,
    consecutiveFailureLimit: nat)

  function AlphaOr(alpha: real, default: real): real {
    if alpha <= 0.0 || alpha > 1.0 then default else alpha
  }

  function PositiveOr(x: real, default: real): real {
    if x <= 0.0 then default else x
  }

  function WithDefaults(c: AdaptiveConfig): AdaptiveConfig {
    c.(failureRateEMAAlpha := AlphaOr(c.failureRateEMAAlpha, 0.5),
       latencyEMAAlpha := AlphaOr(c.latencyEMAAlpha, 0.3),
       minFailureRateThreshold := PositiveOr(c.minFailureRateThreshold, 20.0),
       maxFailureRateThreshold := PositiveOr(c.maxFailureRateThreshold, 80.0))
  }

  /** What unset fields mean, and that usable ones are kept. */
  lemma DefaultsFilledIn(c: AdaptiveConfig)
    ensures var d := WithDefaults(c);
      && d.failureRateEMAAlpha == (if 0.0 < c.failureRateEMAAlpha <= 1.0 then c.failureRateEMAAlpha else 0.5)
      && d.latencyEMAAlpha == (if 0.0 < c.latencyEMAAlpha <= 1.0 then c.latencyEMAAlpha else 0.3)
      && d.minFailureRateThreshold == (if c.minFailureRateThreshold > 0.0 then c.minFailureRateThreshold else 20.0)
      && d.maxFailureRateThreshold == (if c.maxFailureRateThreshold > 0.0 then c.maxFailureRateThreshold else 80.0)
      && d.base == c.base && d.consecutiveFailureLimit == c.consecutiveFailureLimit
  {
  }

  /** One update of an average by `x`: the first one seeds it. */
  predicate MovesTo(alpha: real, first: bool, ema: real, x: real, next: real) {
    next == if first then x else alpha * x + (1.0 - alpha) * ema
  }

  class AdaptiveBreaker {
    const config: AdaptiveConfig
    const inner: CircuitBreaker

    var failureRateEMA: real
    var latencyEMA: real
    var emaInitialized: bool
    var consecutiveFailures: nat
    var currentThreshold: real
    var windowSuccesses: nat
    var windowFailures: nat
    var windowLatency: int
    var windowCalls: nat

    ghost var completions: seq<bool>
    ghost var window: seq<bool>
    ghost var rates: seq<real>
    ghost var latencies: seq<real>

    /** A usable configuration, after defaults. */
    ghost predicate Configured() {
      && 0.0 < config.failureRateEMAAlpha <= 1.0 && 0.0 < config.latencyEMAAlpha <= 1.0
      && config.minFailureRateThreshold < config.maxFailureRateThreshold
    }

    ghost predicate CountsTrack() reads this {
      && consecutiveFailures == Trailing(completions)
      && windowCalls == |window|
      && windowFailures == Losses(window)
      && windowSuccesses + windowFailures == windowCalls
    }

    ghost predicate AveragesTrack() reads this {
      && (emaInitialized <==> rates != [])
      && |latencies| == |rates|
      && (forall i :: 0 <= i < |rates| ==> 0.0 <= rates[i] <= 100.0)
      && (rates != [] ==> failureRateEMA == Average(config.failureRateEMAAlpha, rates))
      && (latencies != [] ==> latencyEMA == Average(config.latencyEMAAlpha, latencies))
    }

    /** The wrapper's own fields agree with the history. */
    ghost predicate Tracks() reads this {
      Configured() && CountsTrack() && AveragesTrack() && currentThreshold == ThresholdOf(rates)
    }

    /** The base threshold until the first update, then the map of the average. */
    ghost function ThresholdOf(history: seq<real>): real
      requires config.minFailureRateThreshold < config.maxFailureRateThreshold
    {
      var base := config.base.failureRateThreshold as real;
      if history == [] then base
      else Threshold(config.minFailureRateThreshold, config.maxFailureRateThreshold, base,
                     Average(config.failureRateEMAAlpha, history))
    }

    ghost predicate Valid() reads this, inner, inner.ringBuffer {
      Tracks() && inner.Valid()
    }

    constructor (c: AdaptiveConfig, zeroTime: int)
      requires c.base.maxRequests < TWO_TO_THE_32 && c.base.minimumNumberOfCalls < TWO_TO_THE_32
      requires c.base.slidingWindowSize < TWO_TO_THE_32
      requires c.base.failureRateThreshold < 256 && c.base.slowCallRateThreshold < 256
      requires WithDefaults(c).minFailureRateThreshold < WithDefaults(c).maxFailureRateThreshold
      ensures Valid() && fresh(inner) && fresh(inner.ringBuffer)
      ensures config == WithDefaults(c) && inner.config == Normalize(c.base)
      ensures completions == [] && window == [] && rates == [] && inner.View() == Initial(zeroTime)
      ensures consecutiveFailures == 0 && currentThreshold == c.base.failureRateThreshold as real
    {
      config := WithDefaults(c);
      failureRateEMA, latencyEMA, emaInitialized := 0.0, 0.0, false;
      consecutiveFailures := 0;
      currentThreshold := c.base.failureRateThreshold as real;
      windowSuccesses, windowFailures, windowLatency, windowCalls := 0, 0, 0, 0;
      completions, window, rates, latencies := [], [], [], [];
      inner := new CircuitBreaker(c.base, zeroTime);
    }

    /** A limit is set, and that many of the latest completions all failed. */
    ghost predicate Latched(history: seq<bool>) {
      config.consecutiveFailureLimit >= 1 && LastFailed(history, config.consecutiveFailureLimit)
    }

    lemma LatchedIs()
      requires CountsTrack()
      ensures Latched(completions)
         <==> config.consecutiveFailureLimit > 0 && consecutiveFailures >= config.consecutiveFailureLimit
    {
      TrailingAtLeast(completions, config.consecutiveFailureLimit);
    }

    /** The bookkeeping at the end of Execute. */
    method Record(failed: bool, duration: int)
      requires CountsTrack()
      modifies this`consecutiveFailures, this`completions
      modifies this`windowSuccesses, this`windowFailures, this`windowLatency, this`windowCalls, this`window
      ensures CountsTrack()
      ensures completions == old(completions) + [!failed] && window == old(window) + [!failed]
      ensures windowLatency == old(windowLatency) + duration
    {
      TrailingAppend(completions, !failed);
      LossesAppend(window, !failed);
      if failed {
        consecutiveFailures := consecutiveFailures + 1;
        windowFailures := windowFailures + 1;
      } else {
        consecutiveFailures := 0;
        windowSuccesses := windowSuccesses + 1;
      }
      windowLatency := windowLatency + duration;
      windowCalls := windowCalls + 1;
      completions, window := completions + [!failed], window + [!failed];
    }

    /** One uninterrupted call.  `err` and `duration` are what the function would return and take;
        `outer` is the whole call's duration; the rest are the clock readings.  At the failure
        limit the breaker is forced open and nothing runs; otherwise the function runs exactly
        when the inner breaker admits, and the call is recorded unless its error reads as a
        rejection. */
    method Execute(err: Option<Error>, duration: int, outer: int, before: int, after: int, stamp: int, tripAt: int)
      returns (ran: bool, result: Option<Error>)
      requires Valid()
      modifies this, inner, inner.ringBuffer
      ensures Valid()
      ensures ran <==> !Latched(old(completions)) && Judge(Lapse(inner.config, old(inner.View()), before)) == Admit
      ensures ran ==> result == err
      ensures ran ==> inner.View() == After(inner.config, Before(inner.config, old(inner.View()), before),
                                            ResultOf(inner.config, err, duration, stamp), after, tripAt)
      ensures Latched(old(completions)) ==>
                !ran && result == Some(OPEN_STATE_ERROR) && inner.View() == ForceOpenCore(old(inner.View()))
      ensures inner.state == ForcedOpen <==> Latched(old(completions)) || old(inner.state) == ForcedOpen
      ensures !ran && !Latched(old(completions)) ==>
                && result == ErrorOf(Judge(Lapse(inner.config, old(inner.View()), before)))
                && inner.View() == Before(inner.config, old(inner.View()), before)
      ensures !ran ==> IsRejection(result)
      ensures completions == if ran && !IsRejection(err) then old(completions) + [err.None?] else old(completions)
      ensures window == if ran && !IsRejection(err) then old(window) + [err.None?] else old(window)
      ensures windowLatency == old(windowLatency) + (if ran && !IsRejection(err) then outer else 0)
      ensures rates == old(rates) && latencies == old(latencies)
    {
      LatchedIs();
      hide Latched, LastFailed, ResultOf, IsRejection, After, Before, Lapse, Judge, Sound, Normal, Rotated, LastOf;
      hide Wrap32, Threshold, Average, Losses, Trailing;
      if config.consecutiveFailureLimit > 0 && consecutiveFailures >= config.consecutiveFailureLimit {
        inner.ForceOpen();
        RejectionsAreRefusals(Some(OPEN_STATE_ERROR));
        return false, Some(OPEN_STATE_ERROR);
      }
      ran, result := PassThrough(err, duration, outer, before, after, stamp, tripAt);
    }

    /** The call below the limit: inner breaker, function, bookkeeping. */
    method PassThrough(err: Option<Error>, duration: int, outer: int, before: int, after: int, stamp: int, tripAt: int)
      returns (ran: bool, result: Option<Error>)
      requires Valid()
      modifies this, inner, inner.ringBuffer
      ensures Valid()
      ensures ran <==> Judge(Lapse(inner.config, old(inner.View()), before)) == Admit
      ensures ran ==> result == err
      ensures ran ==> inner.View() == After(inner.config, Before(inner.config, old(inner.View()), before),
                                            ResultOf(inner.config, err, duration, stamp), after, tripAt)
      ensures inner.state == ForcedOpen <==> old(inner.state) == ForcedOpen
      ensures !ran ==>
                && IsRejection(result)
                && result == ErrorOf(Judge(Lapse(inner.config, old(inner.View()), before)))
                && inner.View() == Before(inner.config, old(inner.View()), before)
      ensures completions == if ran && !IsRejection(err) then old(completions) + [err.None?] else old(completions)
      ensures window == if ran && !IsRejection(err) then old(window) + [err.None?] else old(window)
      ensures windowLatency == old(windowLatency) + (if ran && !IsRejection(err) then outer else 0)
      ensures rates == old(rates) && latencies == old(latencies)
    {
      hide ResultOf, After, Before, Lapse, Judge, Sound, Normal, Rotated, LastOf, Wrap32, Tracks, Failures, Successes;
      hide SlowCalls, Trips, IsRejection;
      ForcedKept(inner.config, Before(inner.config, inner.View(), before),
                 ResultOf(inner.config, err, duration, stamp), after, tripAt);
      ForcedKept(inner.config, inner.View(), ResultOf(inner.config, err, duration, stamp), before, tripAt);
      var v := inner.BeforeCall(before);
      if v != Admit {
        RejectionsAreRefusals(ErrorOf(v));
        return false, ErrorOf(v);
      }
      inner.AfterCall(err, duration, after, stamp, tripAt);
      RecordUnlessRejected(err, outer);
      return true, err;
    }

    method RecordUnlessRejected(err: Option<Error>, outer: int)
      requires Tracks()
      modifies this`consecutiveFailures, this`completions
      modifies this`windowSuccesses, this`windowFailures, this`windowLatency, this`windowCalls, this`window
      ensures Tracks()
      ensures completions == if IsRejection(err) then old(completions) else old(completions) + [err.None?]
      ensures window == if IsRejection(err) then old(window) else old(window) + [err.None?]
      ensures windowLatency == old(windowLatency) + (if IsRejection(err) then 0 else outer)
    {
      hide Threshold, Average, Losses, Trailing;
      if !IsRejection(err) {
        Record(err.Some?, outer);
      }
    }

    /** Failure percentage and mean latency of the window. */
    method MeasureWindow() returns (rate: real, latency: real)
      requires Tracks() && windowCalls > 0
      ensures rate == WindowRate(window) && 0.0 <= rate <= 100.0
      ensures latency == Mean(windowLatency, |window|)
    {
      rate := 0.0;
      var total := windowSuccesses + windowFailures;
      if total > 0 {
        rate := windowFailures as real / total as real * 100.0;
      }
      latency := windowLatency as real / windowCalls as real;
      WindowRateInRange(window);
    }

    /** An empty window changes nothing.  Otherwise the window's failure rate and mean latency join
        their histories, the averages follow them, the threshold follows the failure average and
        lies between its bounds, and a new window begins. */
    method UpdateEMAs()
      requires Tracks()
      modifies this
      ensures Tracks() && completions == old(completions) && window == []
      ensures old(window) == [] ==>
                && rates == old(rates) && latencies == old(latencies)
                && currentThreshold == old(currentThreshold)
      ensures old(window) != [] ==>
                && rates == old(rates) + [WindowRate(old(window))] && windowLatency == 0
                && latencies == old(latencies) + [Mean(old(windowLatency), |old(window)|)]
                && 0.0 <= failureRateEMA <= 100.0
                && config.minFailureRateThreshold <= currentThreshold <= config.maxFailureRateThreshold
      ensures old(window) != [] ==>
                && MovesTo(config.failureRateEMAAlpha, old(rates) == [], old(failureRateEMA),
                           WindowRate(old(window)), failureRateEMA)
                && MovesTo(config.latencyEMAAlpha, old(rates) == [], old(latencyEMA),
                           Mean(old(windowLatency), |old(window)|), latencyEMA)
      ensures old(window) != [] ==>
                currentThreshold == Threshold(config.minFailureRateThreshold, config.maxFailureRateThreshold,
                                              config.base.failureRateThreshold as real, failureRateEMA)
    {
      hide Average, Times, MovesTo, Threshold, WindowRate, Mean, Trailing, Losses;
      if windowCalls == 0 {
        return;
      }
      var windowFailureRate, windowAvgLatency := MeasureWindow();
      MoveAverages(windowFailureRate, windowAvgLatency);
      BeginWindow();
      AdaptThreshold();
    }

    /** The two averages take one more window. */
    method MoveAverages(rate: real, latency: real)
      requires Configured() && AveragesTrack() && 0.0 <= rate <= 100.0
      modifies this`failureRateEMA, this`latencyEMA, this`emaInitialized, this`rates, this`latencies
      ensures AveragesTrack() && 0.0 <= failureRateEMA <= 100.0
      ensures rates == old(rates) + [rate] && latencies == old(latencies) + [latency]
      ensures MovesTo(config.failureRateEMAAlpha, old(rates) == [], old(failureRateEMA), rate, failureRateEMA)
      ensures MovesTo(config.latencyEMAAlpha, old(rates) == [], old(latencyEMA), latency, latencyEMA)
    {
      hide Average, Times, MovesTo;
      failureRateEMA := Moved(config.failureRateEMAAlpha, failureRateEMA, rate, rates);
      latencyEMA := Moved(config.latencyEMAAlpha, latencyEMA, latency, latencies);
      emaInitialized := true;
      rates, latencies := rates + [rate], latencies + [latency];
      AverageInRange(config.failureRateEMAAlpha, rates, 0.0, 100.0);
    }

    /** One average takes one more value; the first one seeds it. */
    method Moved(alpha: real, ema: real, x: real, ghost history: seq<real>) returns (next: real)
      requires emaInitialized <==> history != []
      requires history != [] ==> ema == Average(alpha, history)
      ensures next == Average(alpha, history + [x])
      ensures MovesTo(alpha, history == [], ema, x, next)
    {
      if !emaInitialized {
        SeedIsAverage(alpha, x);
        assert history + [x] == [x];
        return x;
      }
      StepIsAverage(alpha, history, x);
      return alpha * x + (1.0 - alpha) * ema;
    }

    method BeginWindow()
      requires CountsTrack()
      modifies this`windowSuccesses, this`windowFailures, this`windowLatency, this`windowCalls, this`window
      ensures CountsTrack() && window == [] && windowLatency == 0
    {
      windowSuccesses, windowFailures, windowLatency, windowCalls := 0, 0, 0, 0;
      window := [];
    }

    /** The three-branch map and its clamp. */
    method AdaptThreshold()
      requires Configured() && AveragesTrack() && rates != []
      modifies this`currentThreshold
      ensures currentThreshold == ThresholdOf(rates)
      ensures currentThreshold == Threshold(config.minFailureRateThreshold, config.maxFailureRateThreshold,
                                            config.base.failureRateThreshold as real, failureRateEMA)
      ensures config.minFailureRateThreshold <= currentThreshold <= config.maxFailureRateThreshold
    {
      hide Average, Ratio, Lift;
      var min, max := config.minFailureRateThreshold, config.maxFailureRateThreshold;
      var base := config.base.failureRateThreshold as real;
      if failureRateEMA < min {
        currentThreshold := min + (base - min) * 0.3;
      } else if failureRateEMA > max {
        currentThreshold := base + (max - base) * 0.5;
      } else {
        currentThreshold := base + Lift(max - base, Ratio(min, max, failureRateEMA));
      }
      if currentThreshold < min {
        currentThreshold := min;
      }
      if currentThreshold > max {
        currentThreshold := max;
      }
    }

    /** The half of Reset under the wrapper's lock. */
    method ForgetHistory()
      requires Tracks()
      modifies this
      ensures Tracks()
      ensures completions == [] && window == [] && rates == [] && latencies == [] && windowLatency == 0
      ensures consecutiveFailures == 0 && failureRateEMA == latencyEMA == 0.0
      ensures currentThreshold == config.base.failureRateThreshold as real
    {
      hide Threshold, Average, WithDefaults;
      consecutiveFailures, completions := 0, [];
      BeginWindow();
      failureRateEMA, latencyEMA, emaInitialized := 0.0, 0.0, false;
      rates, latencies := [], [];
      currentThreshold := config.base.failureRateThreshold as real;
    }

    /** Both halves, uninterrupted: all history is forgotten and the inner breaker closed. */
    method Reset()
      requires Valid()
      modifies this, inner
      ensures Valid()
      ensures completions == [] && window == [] && rates == [] && latencies == [] && windowLatency == 0
      ensures consecutiveFailures == 0 && failureRateEMA == latencyEMA == 0.0
      ensures currentThreshold == config.base.failureRateThreshold as real
      ensures inner.View() == ResetCore(old(inner.View()))
    {
      hide Threshold, Average, Sound, Normal, Wrap32, Rotated, LastOf;
      ForgetHistory();
      inner.Reset();
    }
  }
}
