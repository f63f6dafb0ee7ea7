/** The breaker object: uint32 window counters and a ring buffer, updated in place.

    `log` is ghost: the results recorded since the last clear.  Each method is proved to act on
    the abstract breaker `View()` as module Breakers says, so what is proved there about every run
    holds of the object. */
module CircuitBreakers {
  import opened Widths
  import opened Breakers

  const BLANK := CallResult(false, false, 0)

  class CircuitBreaker {
    const config: Config
    var state: Phase

    var successes: nat
    var failures: nat
    var slowCalls: nat
    var totalCalls: nat

    var ringBuffer: array<CallResult>
    var ringIndex: nat
    var ringFull: bool

    var halfOpenAllowed: nat
    var halfOpenCount: nat
    var openSince: int

    var totalSuccesses: nat
    var totalFailures: nat
    var totalSlowCalls: nat
    var totalCallsAll: nat
    var stateTransitions: nat

    ghost var log: seq<CallResult>

    ghost function View(): Core reads this {
      Core(state, log, halfOpenCount, halfOpenAllowed, openSince,
           Totals(totalSuccesses, totalFailures, totalSlowCalls, totalCallsAll, stateTransitions))
    }

    /** The counters are the log's counts modulo 2^32. */
    ghost predicate CountersMatch() reads this {
      && successes == Wrap32(Successes(log))
      && failures == Wrap32(Failures(log))
      && slowCalls == Wrap32(SlowCalls(log))
      && totalCalls == Wrap32(|log|)
    }

    /** The rotated buffer is the last `slidingWindowSize` results of `h`. */
    ghost predicate RingShows(h: seq<CallResult>) reads this, ringBuffer {
      config.countWindow ==>
        && ringBuffer.Length == config.slidingWindowSize > 0
        && ringIndex == |h| % ringBuffer.Length
        && ringFull == (|h| >= ringBuffer.Length)
        && Rotated(ringBuffer[..], ringIndex, ringFull) == LastOf(h, ringBuffer.Length)
    }

    /** The object represents its view. */
    ghost predicate Represents() reads this, ringBuffer {
      && Normal(config)
      && CountersMatch()
      && RingShows(log)
    }

    ghost predicate Valid() reads this, ringBuffer {
      Represents() && Sound(config, View())
    }

    constructor (c: Config, zeroTime: int)
      requires c.maxRequests < TWO_TO_THE_32 && c.minimumNumberOfCalls < TWO_TO_THE_32
      requires c.slidingWindowSize < TWO_TO_THE_32
      requires c.failureRateThreshold < 256 && c.slowCallRateThreshold < 256
      ensures Valid() && fresh(ringBuffer)
      ensures config == Normalize(c) && View() == Initial(zeroTime)
    {
      config := Normalize(c);
      state := Closed;
      successes, failures, slowCalls, totalCalls := 0, 0, 0, 0;
      ringBuffer := new CallResult[if c.countWindow then Normalize(c).slidingWindowSize else 0](_ => BLANK);
      ringIndex, ringFull := 0, false;
      halfOpenAllowed, halfOpenCount, openSince := 0, 0, zeroTime;
      totalSuccesses, totalFailures, totalSlowCalls, totalCallsAll, stateTransitions := 0, 0, 0, 0, 0;
      log := [];
      new;
      SmallMod(0, config.slidingWindowSize);
      InitialSound(config, zeroTime);
    }

    /** Forget the window: counters to zero, a blank buffer. */
    method ClearWindow()
      requires Normal(config)
      modifies this`successes, this`failures, this`slowCalls, this`totalCalls
      modifies this`ringBuffer, this`ringIndex, this`ringFull, this`log
      ensures log == [] && Represents()
      ensures ringBuffer == old(ringBuffer) || fresh(ringBuffer)
    {
      totalCalls, successes, failures, slowCalls := 0, 0, 0, 0;
      log := [];
      if config.countWindow {
        ringBuffer := new CallResult[config.slidingWindowSize](_ => BLANK);
        ringIndex := 0;
        ringFull := false;
        SmallMod(0, config.slidingWindowSize);
      }
    }

    method GetStateUnsafe(now: int) returns (s: Phase)
      requires Valid()
      modifies this
      ensures Valid() && (ringBuffer == old(ringBuffer) || fresh(ringBuffer))
      ensures View() == Lapse(config, old(View()), now) && s == state
    {
      LapseSound(config, View(), now);
      if state == Open && now - openSince >= config.timeout {
        state := HalfOpen;
        halfOpenAllowed := config.maxRequests;
        halfOpenCount := 0;
        ClearWindow();
      }
      return state;
    }

    method BeforeCall(now: int) returns (v: Verdict)
      requires Valid()
      modifies this
      ensures Valid() && (ringBuffer == old(ringBuffer) || fresh(ringBuffer))
      ensures View() == Before(config, old(View()), now)
      ensures v == Judge(Lapse(config, old(View()), now))
    {
      BeforeSound(config, View(), now);
      var s := GetStateUnsafe(now);
      match s {
        case Closed => return Admit;
        case HalfOpen =>
          if halfOpenCount >= halfOpenAllowed {
            return ErrTooManyRequests;
          }
          halfOpenCount := halfOpenCount + 1;
          return Admit;
        case Open => return ErrOpenState;
        case ForcedOpen => return ErrForcedOpen;
        case Disabled => return Admit;
      }
    }

    /** One write of the ring buffer. */
    method Push(result: CallResult)
      requires config.countWindow && RingShows(log)
      modifies this`ringIndex, this`ringFull, ringBuffer
      ensures RingShows(log + [result])
    {
      RingStep(ringBuffer[..], ringIndex, ringFull, log, result);
      ghost var written := ringBuffer[..][ringIndex := result];
      ringBuffer[ringIndex] := result;
      assert ringBuffer[..] == written;
      ringIndex := (ringIndex + 1) % ringBuffer.Length;
      if ringIndex == 0 {
        ringFull := true;
      }
    }

    /** The counters of one more result. */
    method Tally(result: CallResult)
      requires CountersMatch()
      modifies this`successes, this`failures, this`slowCalls, this`totalCalls, this`log
      ensures CountersMatch() && log == old(log) + [result]
    {
      hide Successes, Failures, SlowCalls, Wrap32;
      AppendCounts(log, result);
      Wrap32Step(Successes(log));
      Wrap32Step(Failures(log));
      Wrap32Step(SlowCalls(log));
      Wrap32Step(|log|);
      totalCalls := Wrap32(totalCalls + 1);
      if !result.success {
        failures := Wrap32(failures + 1);
      } else {
        successes := Wrap32(successes + 1);
      }
      if result.slow {
        slowCalls := Wrap32(slowCalls + 1);
      }
      log := log + [result];
    }

    method RecordResult(isFailure: bool, isSlow: bool, stamp: int)
      requires Represents()
      modifies this`successes, this`failures, this`slowCalls, this`totalCalls
      modifies this`ringIndex, this`ringFull, this`log, ringBuffer
      ensures Represents()
      ensures log == old(log) + [CallResult(!isFailure, isSlow, stamp)]
    {
      var result := CallResult(!isFailure, isSlow, stamp);
      if config.countWindow {
        Push(result);
      }
      Tally(result);
    }

    method TransitionTo(newState: Phase, at: int)
      requires Represents()
      modifies this
      ensures Represents() && (ringBuffer == old(ringBuffer) || fresh(ringBuffer))
      ensures View() == if old(state) == newState then old(View()) else Move(config, old(View()), newState, at)
    {
      hide Wrap32, Failures, Successes, SlowCalls, Rotated, LastOf, Normal;
      if state == newState {
        return;
      }
      state := newState;
      stateTransitions := stateTransitions + 1;
      ClearWindow();
      match newState {
        case Open => openSince := at;
        case HalfOpen =>
          halfOpenAllowed := config.maxRequests;
          halfOpenCount := 0;
        case _ =>
      }
    }

    /** The breaker opens exactly when the log trips. */
    method CheckThresholds(tripAt: int)
      requires Represents() && state == Closed
      modifies this
      ensures Represents() && (ringBuffer == old(ringBuffer) || fresh(ringBuffer))
      ensures View() == if Trips(config, old(log)) then Move(config, old(View()), Open, tripAt) else old(View())
    {
      if totalCalls < config.minimumNumberOfCalls {
        return;
      }
      var failureRate := failures as real / totalCalls as real * 100.0;
      RateByDivision(failures, totalCalls, config.failureRateThreshold);
      if config.slowCallDuration > 0 {
        var slowCallRate := slowCalls as real / totalCalls as real * 100.0;
        RateByDivision(slowCalls, totalCalls, config.slowCallRateThreshold);
        if slowCallRate >= config.slowCallRateThreshold as real {
          TransitionTo(Open, tripAt);
          return;
        }
      }
      if failureRate >= config.failureRateThreshold as real {
        TransitionTo(Open, tripAt);
      }
    }

    method CheckHalfOpenSuccess(at: int)
      requires Represents() && state == HalfOpen && |log| < TWO_TO_THE_32
      modifies this
      ensures Represents() && (ringBuffer == old(ringBuffer) || fresh(ringBuffer))
      ensures View() == if |old(log)| >= halfOpenAllowed then Move(config, old(View()), Closed, at) else old(View())
    {
      if totalCalls >= halfOpenAllowed {
        TransitionTo(Closed, at);
      }
    }

    method AfterCall(err: Option<Error>, duration: int, now: int, stamp: int, tripAt: int)
      requires Valid()
      modifies this, ringBuffer
      ensures Valid() && (ringBuffer == old(ringBuffer) || fresh(ringBuffer))
      ensures View() == After(config, old(View()), ResultOf(config, err, duration, stamp), now, tripAt)
      ensures var failed := match config.isSuccessful case None => err != None case Some(f) => !f(err);
        && totalFailures == old(totalFailures) + (if failed then 1 else 0)
        && totalSuccesses == old(totalSuccesses) + (if failed then 0 else 1)
      ensures totalSlowCalls == old(totalSlowCalls)
                + (if config.slowCallDuration > 0 && duration > config.slowCallDuration then 1 else 0)
      ensures totalCallsAll == old(totalCallsAll) + 1
    {
      AfterCounts(config, View(), ResultOf(config, err, duration, stamp), now, tripAt);
      var isFailure := err.Some?;
      if config.isSuccessful.Some? {
        isFailure := !config.isSuccessful.value(err);
      }
      var isSlow := false;
      if config.slowCallDuration > 0 {
        isSlow := duration > config.slowCallDuration;
      }
      assert CallResult(!isFailure, isSlow, stamp) == ResultOf(config, err, duration, stamp);
      hide Valid, Settle, Lapse, ResultOf;
      CountTotals(isFailure, isSlow, stamp);
      var s := GetStateUnsafe(now);
      SettleResult(isFailure, isSlow, stamp, tripAt);
    }

    /** Lifetime totals, in every phase. */
    method CountTotals(isFailure: bool, isSlow: bool, ghost stamp: int)
      requires Valid()
      modifies this`totalCallsAll, this`totalFailures, this`totalSuccesses, this`totalSlowCalls
      ensures Valid()
      ensures View() == old(View()).(totals := CountResult(old(View()).totals, CallResult(!isFailure, isSlow, stamp)))
    {
      hide Sound, Normal, Successes, Failures, SlowCalls, Wrap32, Rotated, LastOf;
      CountingSound(config, View(), CallResult(!isFailure, isSlow, stamp));
      totalCallsAll := totalCallsAll + 1;
      if isFailure {
        totalFailures := totalFailures + 1;
      } else {
        totalSuccesses := totalSuccesses + 1;
      }
      if isSlow {
        totalSlowCalls := totalSlowCalls + 1;
      }
    }

    /** The closing switch of AfterCall, on the phase it found. */
    method SettleResult(isFailure: bool, isSlow: bool, stamp: int, tripAt: int)
      requires Valid()
      modifies this, ringBuffer
      ensures Valid() && (ringBuffer == old(ringBuffer) || fresh(ringBuffer))
      ensures View() == Settle(config, old(View()), CallResult(!isFailure, isSlow, stamp), tripAt)
    {
      SettleSound(config, View(), CallResult(!isFailure, isSlow, stamp), tripAt);
      HalfOpenIsSmall();
      hide Represents, Sound, Settle;
      match state {
        case Closed => SettleClosed(isFailure, isSlow, stamp, tripAt);
        case HalfOpen => SettleHalfOpen(isFailure, isSlow, stamp, tripAt);
        case _ => SettleElsewhere(config, View(), CallResult(!isFailure, isSlow, stamp), tripAt);
      }
    }

    lemma HalfOpenIsSmall()
      requires Valid()
      ensures state == HalfOpen ==> |log| + 1 < TWO_TO_THE_32
    {
    }

    method SettleClosed(isFailure: bool, isSlow: bool, stamp: int, tripAt: int)
      requires Represents() && state == Closed
      modifies this, ringBuffer
      ensures Represents() && (ringBuffer == old(ringBuffer) || fresh(ringBuffer))
      ensures View() == Settle(config, old(View()), CallResult(!isFailure, isSlow, stamp), tripAt)
    {
      hide Represents, Trips;
      RecordResult(isFailure, isSlow, stamp);
      CheckThresholds(tripAt);
    }

    method SettleHalfOpen(isFailure: bool, isSlow: bool, stamp: int, tripAt: int)
      requires Represents() && state == HalfOpen && |log| + 1 < TWO_TO_THE_32
      modifies this, ringBuffer
      ensures Represents() && (ringBuffer == old(ringBuffer) || fresh(ringBuffer))
      ensures View() == Settle(config, old(View()), CallResult(!isFailure, isSlow, stamp), tripAt)
    {
      hide Represents;
      RecordResult(isFailure, isSlow, stamp);
      if isFailure {
        TransitionTo(Open, tripAt);
      } else {
        CheckHalfOpenSuccess(tripAt);
      }
    }

    method Reset()
      requires Valid()
      modifies this
      ensures Valid() && (ringBuffer == old(ringBuffer) || fresh(ringBuffer))
      ensures View() == ResetCore(old(View()))
      ensures state == Closed && log == [] && halfOpenCount == 0
      ensures successes == failures == slowCalls == totalCalls == 0
      ensures totalCallsAll == old(totalCallsAll) && stateTransitions == old(stateTransitions)
    {
      ResetSound(config, View());
      state := Closed;
      halfOpenCount := 0;
      ClearWindow();
    }

    method ForceOpen()
      requires Valid()
      modifies this`state
      ensures Valid() && View() == ForceOpenCore(old(View())) && state == ForcedOpen
    {
      ResetSound(config, View());
      state := ForcedOpen;
    }
  }
}
