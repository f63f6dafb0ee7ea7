# GoShield: a verified model

GoShield is a Go library of small stateful resilience components. This project models six of them in
Dafny and proves what they guarantee over every run and every interleaving, under a clock that
moves on between any two steps:

- the circuit breaker (`Breaker.dfy`, `CircuitBreaker.dfy`, `BreakerRuns.dfy`, `BreakerWindow.dfy`,
  `ErrorRuns.dfy`),
- the adaptive breaker around it (`Adaptive.dfy`, `AdaptiveBreaker.dfy`, `AdaptiveRuns.dfy`),
- the two rate limiters (`TokenBucket.dfy`, `SlidingWindow.dfy`),
- the bulkhead (`Bulkhead.dfy`),
- retry with backoff (`Backoff.dfy`),
- the executor that stacks them (`Executor.dfy`, `ExecutorRuns.dfy`, `WindowedRuns.dfy`,
  `FallbackRuns.dfy`).

`Widths.dfy`, `Naturals.dfy`, `Reals.dfy` and `Reservation.dfy` hold shared vocabulary.
`dafny verify dfyconfig.toml` checks everything.

## How it is built

Each object of the source is a class with the source's fields. Beside them it keeps a ghost
history: the results recorded since a breaker was last cleared, the grants of a bucket, the stamps
of a window, the program counters of the threads in a bulkhead. Its methods are proved to do to the
history what a short specification says, so wrapping counters, the ring buffer, the lazily refilled
token count and the trimmed stamp list are all refinements of something simpler. The statements
about runs are lemmas over that specification: a run is a sequence of critical sections, any number
of calls may be in flight between two of theirs, and nothing bounds its length. A call that finishes
was in flight, and its result is one that the configuration gives some call of no longer than that
(`Measured`), so the runs shown to exist are runs the configured object can make.

Instants and durations are whole nanoseconds. Methods take as arguments the clock readings they
make, one per `time.Now`, in order. uint32 window counters of the breaker, int64 durations and
Fibonacci numbers, and uint64 retry totals wrap as in Go; float64 values are exact reals.

## What the code does differently from what is written about it

- The breaker's threshold test does not look at the sliding window. Rates are over all calls since
  the last clear (`WindowCounts`), by uint32 counters that are exact below 2^32 calls only
  (`CountersExact`). For which configurations that makes a difference in some run is settled exactly
  for the counters (`WrappedCountersMisfire`), for the window (`WindowIsIgnored`), and for the window
  without wrapping (`WindowIsIgnoredEarly`).
- A half-open breaker counts late results of calls let through before the trip. It can close
  without a single probe, exactly when at least MaxRequests calls were in flight and calls can count
  as successful at all (`ClosesUnprobed`).
- The executor wraps in the reverse of the order that its comments and `docs/guide.md:24` give
  (`DocumentedOrder`): the bulkhead is outermost and the fallback innermost. A retry therefore costs
  no further token (`OneTokenPerExecution`, `DocumentedOrderDebitsRetries`), and the fallback does
  not catch the refusals of the limiter, a positive timeout or the bulkhead (`FallbackCatchesAll`).
- Inside the breaker, a fallback that never fails leaves it no error to see. The breaker then stays
  closed for good, and refuses nobody, exactly when calls without an error cannot trip it: neither
  does a configured IsSuccessful call them failures nor can slow ones reach their threshold. With
  the defaults of both settings they cannot (`NoErrorsStayClosed`, `FallbackDisablesBreaker`,
  `TurnsAwayExactly`, `FallbackSavesExactly`).
- The consecutive-failure limit acts on the next Execute, not on the failure that reaches it, and a
  caller that saw the limit can still force the breaker open after a Reset (`ResetCanBeUndone`).
- The bulkhead's reported free slots are not the free slots of its semaphore
  (`AvailableSlotsExact`) and its activity count has no bound (`Overshoots`).
- A Fibonacci delay whose product overflows reads as exhausted retries. That happens exactly when
  Initial times the Fibonacci number MaxRetryCount + 1 does not fit int64
  (`FibonacciNeverStopsEarly`, `OverflowStopsRetries`). `docs/guide.md` lists the
  first delays as 100, 100, 200 ms for 100 ms; the code starts 100, 200, 300 ms, as its tests do.
- The retry tracker books MaxRetries + 1 attempts whatever happened, which bounds the real number
  for every limit but -1 (`BookingBounds`).

## Model

| member | source | states |
|---|---|---|
| TokenBuckets.HeadroomIsLaw | internal/ratelimit/ratelimit.go:65-76 | the closed form of the token count is the law: an amount fits it exactly when granting it breaks "at most burst + rate·length" for no interval ending now |
| TokenBuckets.AttemptTracks | internal/ratelimit/ratelimit.go:65-152 | refresh and debit decide exactly by the law over the whole grant history, and leave a bucket whose count is again that history's closed form |
| TokenBuckets.RunKeepsRateLaw | internal/ratelimit/ratelimit.go:65-152 | in every run of every mix of attempts, every closed interval received at most burst + rate·length tokens, and 0 ≤ tokens ≤ burst |
| TokenBuckets.RefreshTwice | internal/ratelimit/ratelimit.go:143-152 | refreshing at two instants equals refreshing at the later one |
| TokenBuckets.RefillPerSecond | internal/ratelimit/ratelimit.go:143-152 | k seconds refill k·rate tokens |
| TokenBuckets.RefusedAttemptUnobservable | internal/ratelimit/ratelimit.go:65-152 | inserting or deleting a refused attempt anywhere in a run changes no other decision and no grant |
| TokenBuckets.LazyIsContinuous | internal/ratelimit/ratelimit.go:143-152 | on every run the lazily refilled bucket decides as one that is topped up at every nanosecond |
| TokenBuckets.TokensInRange | internal/ratelimit/ratelimit.go:143-152 | a bucket that tracks its grants holds between zero and burst tokens |
| TokenBuckets.DelayGain | internal/ratelimit/ratelimit.go:93-95 | the truncated wait: any earlier instant accrues less than the deficit, the computed one misses less than a nanosecond's worth, any later one suffices |
| TokenBuckets.WaitStep | internal/ratelimit/ratelimit.go:83-104 | one refused round of WaitN leaves at most a truncation error, a late timer makes up for it, and such an error asks for no more sleep |
| TokenBuckets.TokenBucket.constructor | internal/ratelimit/ratelimit.go:52-59 | a new bucket is full and has granted nothing |
| TokenBuckets.TokenBucket.RefreshTokens | internal/ratelimit/ratelimit.go:143-152 | tokens and last refresh become those of the lazy refill specification |
| TokenBuckets.TokenBucket.AllowN | internal/ratelimit/ratelimit.go:65-76 | grants exactly when the rate law permits it, and records exactly that grant |
| TokenBuckets.TokenBucket.ReserveN | internal/ratelimit/ratelimit.go:111-133 | debits exactly when the law permits; a delayed reservation debits nothing, and its delay is the last instant of refusal: refused before it, granted after it if n fits the burst |
| TokenBuckets.TokenBucket.WaitN | internal/ratelimit/ratelimit.go:82-105 | the first check with lawful room grants, and no other; no sleep is planned past the first instant with room; never above the burst; otherwise by the check after the first late timer, and by the third check if the clock moves between the second and third |
| SlidingWindows.CountIsBlock | internal/ratelimit/ratelimit.go:243-250 | the admissions of any interval are one contiguous block of the stamp list |
| SlidingWindows.SpacingIsLaw | internal/ratelimit/ratelimit.go:173-184 | if admissions `limit` places apart are more than a window apart, no closed interval of the window's length holds more than `limit` |
| SlidingWindows.RoomIsLaw | internal/ratelimit/ratelimit.go:173-184 | there is room exactly when admitting then keeps the window law: nothing is refused that could be admitted |
| SlidingWindows.AdmissionKeepsSpacing | internal/ratelimit/ratelimit.go:173-184 | admitting at a later stamp, after trimming left fewer than `limit` entries, keeps that spacing although the clock is read twice |
| SlidingWindows.RecentIsSuffix | internal/ratelimit/ratelimit.go:243-250 | in a sorted log dropping the old prefix keeps exactly the entries no older than the cutoff |
| SlidingWindows.RecentTwice | internal/ratelimit/ratelimit.go:243-250 | trimming an already trimmed list equals rescanning the whole log |
| SlidingWindows.TrimmedRunAgrees | internal/ratelimit/ratelimit.go:173-250 | in every run the trimming limiter decides exactly as one that recounts its whole history |
| SlidingWindows.RunKeepsWindowLaw | internal/ratelimit/ratelimit.go:173-250 | in every run no closed interval of the window's length contains more than `limit` admissions |
| SlidingWindows.RoomFrom | internal/ratelimit/ratelimit.go:197-199 | a full window has room at t exactly when its oldest entry is more than a window old by t |
| SlidingWindows.SlidingWindow.constructor | internal/ratelimit/ratelimit.go:165-171 | a new window has admitted nothing |
| SlidingWindows.SlidingWindow.Cleanup | internal/ratelimit/ratelimit.go:243-250 | the kept list is the part of the full log in the closed window ending now |
| SlidingWindows.SlidingWindow.Admit | internal/ratelimit/ratelimit.go:180 | the stamp joins the log and the list, keeping order and spacing |
| SlidingWindows.SlidingWindow.Allow | internal/ratelimit/ratelimit.go:173-184 | admits exactly when the closed window ending at the trimming instant holds fewer than `limit` admissions |
| SlidingWindows.SlidingWindow.Reserve | internal/ratelimit/ratelimit.go:211-233 | admits now exactly when there is room; otherwise admits nothing and the announced delay is exact: room from the next nanosecond on, never before |
| SlidingWindows.SlidingWindow.Wait | internal/ratelimit/ratelimit.go:186-209 | the first check with room admits, and no other; there is no room while it sleeps as planned; the check after the first late timer is admitted; it ends unadmitted only by cancellation |
| SlidingWindows.LimiterObeysLaw | internal/ratelimit/ratelimit.go:155-250 | the window law holds of the object's whole log after any operations |
| Breakers.RateByDivision | internal/breaker/breaker.go:271-281 | the percentage test by division equals the cross-multiplied one |
| Breakers.TripsExactly | internal/breaker/breaker.go:266-284 | below 2^32 calls since the last clear the wrapping counters decide on the exact failure and slow rates |
| Breakers.RingStep | internal/breaker/breaker.go:247-253 | writing at the ring index turns a buffer showing the last W results into one showing the last W with the new result, index = count mod W, full iff count ≥ W |
| Breakers.LapseSound | internal/breaker/breaker.go:139-156 | the lazy step keeps the invariant, and a breaker still open afterwards is inside its timeout |
| Breakers.BeforeSound | internal/breaker/breaker.go:174-196 | beforeCall keeps the invariant in every phase |
| Breakers.AfterSound | internal/breaker/breaker.go:198-323 | afterCall keeps the invariant in whatever phase a call finishes: empty window when open, only successes and fewer than MaxRequests of them when half-open, no reached threshold when closed, Disabled unreachable |
| Breakers.ResetSound | internal/breaker/breaker.go:325-358 | Reset and ForceOpen keep the invariant |
| CircuitBreakers.CircuitBreaker.constructor | internal/breaker/breaker.go:97-127 | any configuration within the source's widths gives a closed, empty, sound breaker with the defaults filled in |
| CircuitBreakers.CircuitBreaker.GetStateUnsafe | internal/breaker/breaker.go:139-156 | counters, ring and phase together perform the abstract lazy step |
| CircuitBreakers.CircuitBreaker.BeforeCall | internal/breaker/breaker.go:174-196 | the object admits or refuses, with the right error, as the abstract breaker does |
| CircuitBreakers.CircuitBreaker.AfterCall | internal/breaker/breaker.go:198-238 | a call counts as failed exactly if it returned an error or, where IsSuccessful is set, that denies it, and as slow exactly beyond the limit; the object with wrapping counters and ring buffer refines the abstract breaker on its result log |
| CircuitBreakers.CircuitBreaker.Push | internal/breaker/breaker.go:247-253 | the ring shows the last W results of the log before and after the write |
| CircuitBreakers.CircuitBreaker.RecordResult | internal/breaker/breaker.go:240-264 | the log gains exactly this result; counters stay its counts modulo 2^32 and the ring its last W entries |
| CircuitBreakers.CircuitBreaker.CheckThresholds | internal/breaker/breaker.go:266-284 | opens exactly when the log's wrapped counts reach a threshold with enough calls |
| CircuitBreakers.CircuitBreaker.CheckHalfOpenSuccess | internal/breaker/breaker.go:286-290 | closes exactly when the log holds the allowed number of results |
| CircuitBreakers.CircuitBreaker.TransitionTo | internal/breaker/breaker.go:292-323 | a counted move that clears the window, restarts the timeout into Open, and does nothing to the same phase |
| CircuitBreakers.CircuitBreaker.SettleResult | internal/breaker/breaker.go:224-237 | the switch on the phase found does to the object what the abstract settlement does to the log |
| CircuitBreakers.CircuitBreaker.Reset | internal/breaker/breaker.go:325-346 | closed with an empty window and no probes, totals kept |
| CircuitBreakers.CircuitBreaker.ForceOpen | internal/breaker/breaker.go:348-358 | only the phase changes |
| Breakers.MeasuredExactly | internal/breaker/breaker.go:204-212 | the results afterCall can make of a call: as IsSuccessful allows, and slow only with a limit and after longer than it |
| Breakers.RejectionsAreRefusals | internal/breaker/adaptive.go:187-189 | the errors the wrapper takes for rejections are exactly those of a refusal, one for each reason |
| Breakers.DefaultsFilled | internal/breaker/breaker.go:97-117 | the default of every unset field; set ones are kept |
| ErrorRuns.ErrorsOpen | internal/breaker/breaker.go:198-284 | without IsSuccessful and a slow-call limit, a new breaker whose calls all return errors opens with the MinimumNumberOfCalls-th of them and not before |
| ErrorRuns.NoErrorsStayClosed | internal/breaker/breaker.go:198-284 | and one whose calls all return without an error never leaves Closed |
| ErrorRuns.DefaultRates | internal/breaker/breaker.go:54-66 | left to its defaults a breaker trips from ten calls on, when half of them failed or, with a slow-call limit, all were slow |
| ErrorRuns.DefaultBreaker | internal/breaker/breaker.go:54-66 | its life: open at the tenth error, closed to all for a minute, then one probe, whose error reopens it and whose success closes it |
| BreakerRuns.RunGood | internal/breaker/breaker.go:139-358 | the invariant holds in every state of every run with any number of calls in flight |
| BreakerRuns.AdmittedExactly | internal/breaker/breaker.go:174-196 | in reachable states a call is let through exactly when closed, or half-open with a probe left, or open for a full timeout; and which error value it is refused with otherwise |
| BreakerRuns.ProbesThrottled | internal/breaker/breaker.go:139-323 | after opening at T and until it closes, at most MaxRequests·⌊(t−T)/Timeout⌋ calls are let through by t, under any interleaving of late completions |
| BreakerRuns.ThrottleReached | internal/breaker/breaker.go:139-323 | where calls can count as failed, for every number of timeouts some run uses that bound up exactly |
| BreakerRuns.UnfailingProbes | internal/breaker/breaker.go:224-237 | where none can, a tripped breaker lets through at most MaxRequests calls in all |
| BreakerRuns.ThrottleExact | internal/breaker/breaker.go:139-323 | so the bound is used up for every number of timeouts exactly if calls can count as failed |
| BreakerRuns.ForcedOpenAdmitsNone | internal/breaker/breaker.go:174-196 | a forced-open breaker lets nothing through and stays forced open until it is reset |
| BreakerRuns.Ledger | internal/breaker/breaker.go:158-238 | admitted = in flight + completed; lifetime successes, failures, slow calls and calls count exactly the completions of each kind |
| BreakerRuns.LogIsResults | internal/breaker/breaker.go:226-264 | while the breaker stays closed, or half-open, its window log gains exactly the results of finishing calls, in order |
| BreakerRuns.TransitionsCounted | internal/breaker/breaker.go:292-299 | stateTransitions counts trips, reopenings and recoveries and nothing else: no lazy step, Reset or ForceOpen |
| BreakerRuns.TripsBalance | internal/breaker/breaker.go:198-323 | without Reset and ForceOpen, trips minus recoveries is one while tripped and zero while closed |
| BreakerRuns.HalfOpenDecides | internal/breaker/breaker.go:230-236 | a half-open breaker reopens exactly on a failure and closes exactly on the MaxRequests-th recorded success |
| BreakerRuns.EpisodeConserves | internal/breaker/breaker.go:174-264 | within a half-open episode, recorded results plus calls in flight equal the calls in flight before it plus its probes |
| BreakerRuns.RecoveryNeedsResults | internal/breaker/breaker.go:230-290 | no run closes a tripped breaker with fewer than MaxRequests finished calls, or where no call can count as successful |
| BreakerRuns.ClosesUnprobed | internal/breaker/breaker.go:224-290 | an open breaker can close without admitting one probe exactly when at least MaxRequests calls are in flight and calls can count as successful |
| BreakerRuns.HalfOpenNotStuck | internal/breaker/breaker.go:174-290 | in every run a half-open breaker out of probes has as many calls in flight as results missing, at least one, and the episode does not outlast the end of that many |
| BreakerWindow.ClosedBelowThresholds | internal/breaker/breaker.go:266-284 | in every reachable closed state below 2^32 calls, both rates over all calls since the last clear are below threshold once the minimum is in |
| BreakerWindow.ClosedDecides | internal/breaker/breaker.go:226-284 | a finished call trips a closed breaker exactly when those rates, with it included, reach a threshold |
| BreakerWindow.CountersExact | internal/breaker/breaker.go:69-72 | the uint32 window counters are the exact counts exactly below 2^32 calls |
| BreakerWindow.WrappedCountersMisfire | internal/breaker/breaker.go:255-283 | some call of some run is decided otherwise than by the exact rates over all calls since the last clear exactly for configurations that can produce both an outcome counting towards a threshold within the counters' reach and one that does not |
| BreakerWindow.WindowCounts | internal/breaker/breaker.go:247-263 | counters exceed the ring's counts by exactly what was evicted; the call counter agrees exactly while nothing was |
| BreakerWindow.WindowIsIgnored | internal/breaker/breaker.go:255-284 | and otherwise than by the count window exactly for those, and for those in which every call fails and the window is smaller than MinimumNumberOfCalls |
| BreakerWindow.WindowIsIgnoredEarly | internal/breaker/breaker.go:255-284 | the same below 2^32 calls since the last clear, with thresholds up to 100 per cent in place of the counters' reach, unless the window is within a hundred of 2^32 |
| Adaptives.TrailingIsLongest | internal/breaker/adaptive.go:193-199 | the failure counter's specification is the longest failure run at the end of the completions |
| Adaptives.TrailingAtLeast | internal/breaker/adaptive.go:171-176 | it reaches n exactly when the last n completions all failed |
| Adaptives.RateAndMean | internal/breaker/adaptive.go:217-228 | the window rate is the percentage of calls that failed, the window latency their mean |
| Adaptives.AverageIsWeightedSum | internal/breaker/adaptive.go:230-241 | the moving average is a weighted sum of the window rates whose weights sum to one |
| Adaptives.WeightNonNegative | internal/breaker/adaptive.go:236-240 | for smoothing factors in (0, 1] every weight is non-negative |
| Adaptives.AverageInRange | internal/breaker/adaptive.go:230-241 | the average stays between the least and greatest rate observed |
| Adaptives.AverageConverges | internal/breaker/adaptive.go:235-241 | under a constant window rate the error shrinks by exactly 1 − α per update |
| Adaptives.RawInTenths | internal/breaker/adaptive.go:262-273 | the three branches: three tenths of the way from the lower bound to the base, half the way from the base to the upper bound, and up to three tenths of that way in proportion between |
| Adaptives.ClampIsNearest | internal/breaker/adaptive.go:275-280 | the clamp takes the nearest value between the bounds |
| Adaptives.ThresholdInRange | internal/breaker/adaptive.go:255-281 | for min < max the adapted threshold lies in [min, max] |
| Adaptives.ClampIdle | internal/breaker/adaptive.go:262-280 | with the base between the bounds the clamp changes nothing |
| Adaptives.ThresholdMonotone | internal/breaker/adaptive.go:255-281 | then a higher failure average never gives a lower threshold, across both jump points |
| AdaptiveBreakers.AdaptiveBreaker.constructor | internal/breaker/adaptive.go:115-157 | defaults filled in, no history, a fresh sound inner breaker |
| AdaptiveBreakers.DefaultsFilledIn | internal/breaker/adaptive.go:115-127 | the default of every unusable field; usable ones are kept |
| AdaptiveBreakers.AdaptiveBreaker.Record | internal/breaker/adaptive.go:192-202 | the failure counter is the trailing failure run of the recorded calls, and window successes + failures = window calls |
| AdaptiveBreakers.AdaptiveBreaker.Execute | internal/breaker/adaptive.go:169-205 | runs nothing, returns the open error and forces the breaker open exactly when a limit is set and that many of the latest completions all failed; otherwise runs the function exactly when the inner breaker admits, else returns its error; records exactly the calls whose error is not a rejection value |
| AdaptiveBreakers.AdaptiveBreaker.UpdateEMAs | internal/breaker/adaptive.go:209-251 | an empty window changes nothing; otherwise each average moves by its own weight towards the window's rate or latency, which join the averaged histories; average in [0, 100], threshold the map of it and within bounds, new window |
| AdaptiveBreakers.AdaptiveBreaker.MoveAverages | internal/breaker/adaptive.go:230-241 | both averages become those of the extended histories |
| AdaptiveBreakers.AdaptiveBreaker.AdaptThreshold | internal/breaker/adaptive.go:255-281 | the threshold becomes the clamped map of the average of the whole history |
| AdaptiveBreakers.AdaptiveBreaker.Reset | internal/breaker/adaptive.go:325-340 | all history forgotten, base threshold restored, inner breaker reset |
| AdaptiveRuns.ProjectsToInner | internal/breaker/adaptive.go:169-205 | under any interleaving the inner breaker's part of a run is a run of the plain breaker |
| AdaptiveRuns.StartsThrottled | internal/breaker/adaptive.go:169-205 | so function starts through the wrapper obey the probe bound, from an open breaker or in the middle of a half-open episode |
| AdaptiveRuns.CheckLatches | internal/breaker/adaptive.go:171-176 | a caller goes to force the breaker open exactly when a limit is set and that many of the latest completions all failed |
| AdaptiveRuns.LatchHolds | internal/breaker/adaptive.go:176-189 | once forced open nothing starts until an inner reset, whatever finishes and however the failure counter moves |
| AdaptiveRuns.LatchEngages | internal/breaker/adaptive.go:176-180 | from the ForceOpen of a caller that saw the limit on, no function starts until an inner reset |
| AdaptiveRuns.StragglersOnly | internal/breaker/adaptive.go:170-183 | while the limit stays reached only callers already past the check can start a function, each once |
| AdaptiveRuns.ResetCanBeUndone | internal/breaker/adaptive.go:176-179 | right after a Reset the breaker can be forced open with no new failure exactly when a caller that saw the limit is still pending |
| Bulkheads.RunInv | internal/bulkhead/bulkhead.go:60-116 | under every interleaving: channel length = slot holders ≤ capacity, activeCount = threads counted and not uncounted, call totals account for every thread |
| Bulkheads.RunningBounded | internal/bulkhead/bulkhead.go:60-116 | at most MaxConcurrent threads are in the function |
| Bulkheads.NobodyBlocks | internal/bulkhead/bulkhead.go:60-116 | release never blocks and no thread inside Execute is ever without a step |
| Bulkheads.Quiescent | internal/bulkhead/bulkhead.go:60-116 | with no thread inside, the channel is empty, activeCount is 0, calls = completions, and every arrival was completed or rejected |
| Bulkheads.AvailableSlotsExact | internal/bulkhead/bulkhead.go:133-144 | the reported free slots are the semaphore's exactly when as many threads hold an uncounted slot as are counted without one; activeCount ≤ MaxConcurrent + threads between receive and decrement |
| Bulkheads.Overshoots | internal/bulkhead/bulkhead.go:110-116 | for every excess some run makes activeCount MaxConcurrent plus that excess |
| Bulkheads.Bulkhead.constructor | internal/bulkhead/bulkhead.go:43-52 | a non-positive MaxConcurrent becomes 10; everything starts at zero |
| Bulkheads.Bulkhead.Select | internal/bulkhead/bulkhead.go:79-108 | the non-blocking select sends exactly when the channel has room; either outcome is the system's step |
| Bulkheads.Bulkhead.GiveBack | internal/bulkhead/bulkhead.go:111 | the receive finds a token and takes one |
| Bulkheads.Bulkhead.CountInactive | internal/bulkhead/bulkhead.go:112-115 | the locked half of release is the system's step |
| Bulkheads.Bulkhead.Execute | internal/bulkhead/bulkhead.go:60-77 | one call leaves slots and activity as found and is counted once, as a completed call or as a rejection |
| Backoffs.FibonacciLoop | internal/backoff/backoff.go:128-137 | the loop yields 1 for n ≤ 0 and otherwise the n-th Fibonacci number modulo 2^64 |
| Backoffs.FibonacciExact | internal/backoff/backoff.go:128-137 | it is the Fibonacci number exactly for 1 ≤ n ≤ 92 |
| Backoffs.FibonacciDelayExact | internal/backoff/backoff.go:111-122 | without product overflow the delay is Initial·F(retry + 2) capped at MaxInterval |
| Backoffs.FibonacciDelaysGrow | internal/backoff/backoff.go:111-122 | then delays never decrease and stay within the cap |
| Backoffs.FibonacciDelaysSum | internal/backoff/backoff.go:111-122 | then the first k sum to at most Initial·(F(k + 3) − 2) |
| Backoffs.FibonacciDelaysSumExactly | internal/backoff/backoff.go:111-122 | below the cap to exactly that |
| Backoffs.FibonacciDelaysCapped | internal/backoff/backoff.go:111-122 | and to at most k·MaxInterval |
| Backoffs.FibonacciNeverStopsEarly | internal/backoff/backoff.go:111-122 | every permitted retry has a non-negative delay exactly when Initial·F(MaxRetryCount + 1) fits int64 |
| Backoffs.OverflowStopsRetries | internal/backoff/backoff.go:117-121 | so from 100 ms some permitted retry reads as exhausted exactly when 54 or more are permitted |
| Backoffs.ExponentialRecurrence | internal/backoff/backoff.go:49-59 | over exact reals each delay is the previous one times the multiplier, capped, and never smaller |
| Backoffs.JitterShortens | internal/backoff/backoff.go:80-98 | a jittered delay lies between zero and the exponential one, itself within the cap |
| Backoffs.DelaysAtFaceValue | internal/backoff/backoff.go:30-98 | the fixed delay; the exponential one, from min(Initial, Max) on, to the whole nanosecond; the same of a random part of it |
| Backoffs.NegativeMeansExhausted | internal/backoff/backoff.go:30-122 | with non-negative intervals, and for Fibonacci the last permitted product within int64, a delay is negative exactly when the retries are used up, for all four strategies |
| Backoffs.ExecuteRetries | internal/backoff/backoff.go:196-231 | retries exactly the attempts that fail retryably, have a delay left and are not cancelled; the outcome is the last attempt's value, its error if not to be retried, exhaustion with its error, or cancellation; at most max(0, MaxRetryCount) + 1 calls; OnRetry arguments and time slept |
| Backoffs.FirstSuccessReturned | internal/backoff/backoff.go:199-203 | a value is returned exactly when the stopping attempt succeeds, and every earlier one failed |
| Backoffs.ExhaustedExactly | internal/backoff/backoff.go:207-216 | the loop reports exhaustion exactly when all permitted attempts failed retryably and no wait was cancelled |
| Backoffs.SleptIsDelays | internal/backoff/backoff.go:222-229 | the time slept is the sum of the delays before the last attempt, to which the Fibonacci bounds apply |
| Backoffs.BookingBounds | internal/backoff/backoff.go:169-173 | the booked attempts bound the calls made for every retry limit but -1 |
| Backoffs.RetryTracker.Execute | internal/backoff/backoff.go:165-185 | the outcome is the loop's; totals move as booked, and totalAttempts stays the wrapped sum of bookings that bound the real calls |
| Executors.BuildChain | pkg/resilience/executor.go:115-171 | the closures nest with the first listed pattern innermost |
| Executors.FullStack | pkg/resilience/executor.go:115-171 | with everything configured: bulkhead, timeout, limiter, retry, breaker, fallback, from the outside in |
| Executors.DocumentedOrder | pkg/resilience/executor.go:115-171 | the nesting is the documented one exactly when at most one layer is configured |
| Executors.TraceBounded | pkg/resilience/executor.go:119-168 | for any nesting of the layers: no execution makes more calls, token debits or breaker decisions than the product of the retry layers around them |
| Executors.OneTokenPerExecution | pkg/resilience/executor.go:135-152 | one execution debits at most one token whatever its retries, and calls the function at most once per permitted attempt |
| Executors.DocumentedLayers | docs/guide.md:21-24 | the chain used for comparison nests exactly in the order the guide gives |
| Executors.DocumentedOrderDebitsRetries | docs/guide.md:24 | in the documented order an execution can debit a token for every attempt |
| Executors.CallsNeedToken | pkg/resilience/executor.go:143-152 | at every moment of an execution, calls ≤ permitted attempts · tokens taken |
| Executors.CallsNeedAdmission | pkg/resilience/executor.go:127-141 | at every moment, calls ≤ breaker admissions: attempts refused by the breaker run no function |
| Executors.BreakerSeesNoFailure | pkg/resilience/executor.go:119-133 | a fallback that never fails hides every failure from the breaker |
| Executors.FallbackCatchesAll | pkg/resilience/executor.go:119-168 | without a breaker such a fallback saves every execution exactly when no limiter, positive timeout or bulkhead is configured |
| Executors.ErrorMeansTurnedAway | pkg/resilience/executor.go:119-168 | with none of these an execution returns an error only if a breaker turned it away |
| ExecutorRuns.RetryLayerIsLoop | pkg/resilience/executor.go:135-141 | every run of the retry loop over an inner chain is a trace of the retry layer, with the same outcome |
| ExecutorRuns.ThroughputBounded | pkg/resilience/executor.go:115-171 | over all interleaved executions and other users of the limiter: function calls by t ≤ permitted attempts · (burst + rate·(t − creation)) |
| WindowedRuns.TakesWithinLog | internal/ratelimit/ratelimit.go:173-209 | with a sliding window as limiter, every execution's admission is in its log, which keeps the window law |
| WindowedRuns.WindowedThroughput | pkg/resilience/executor.go:115-171 | then the executions admitted within any closed interval of the window's length make at most limit · permitted attempts calls |
| ExecutorRuns.CallsAdmitted | pkg/resilience/executor.go:127-133 | over all interleaved executions, function calls ≤ admissions of the shared breaker's run |
| ExecutorRuns.TrippedCallsThrottled | pkg/resilience/executor.go:115-171 | since the shared breaker opened and until it closes, function calls ≤ MaxRequests per elapsed timeout, plus admissions unused when it opened |
| FallbackRuns.NewIsCalm | pkg/resilience/executor.go:115-171 | a new executor with a new breaker meets the hypotheses of the statements below |
| FallbackRuns.RunIsErrorFree | pkg/resilience/executor.go:119-133 | over all interleaved executions a breaker around such a fallback is told of no error |
| FallbackRuns.FallbackDisablesBreaker | pkg/resilience/executor.go:119-133 | then the breaker stays closed in every run exactly when calls without an error cannot trip it |
| FallbackRuns.TurnsAwayExactly | internal/breaker/breaker.go:174-284 | and it turns an execution away in some run exactly when they can, whatever the other layers |
| FallbackRuns.FallbackSavesExactly | pkg/resilience/executor.go:115-171 | with no other layer that can refuse, some execution of some run returns an error exactly when a breaker is configured and they can |

## Left out

- float64 rounding, NaN and out-of-range conversions: rates, tokens, averages and exponential delays are exact reals, so comparisons at the very boundary are idealised.
- TokenBuckets.TokenBucket.AllowN: states nothing for a negative n, rate or burst, or for a clock that runs backwards; these are outside the rate law.
- TokenBuckets.TokenBucket.WaitN: at rate zero only for requests that can be granted at once, since the source divides by the rate otherwise; models the context as cancelling one given sleep.
- TokenBuckets.TokenBucket.ReserveN: at rate zero likewise; a delayed reservation is not an admission, and callers that act on it are outside every rate bound.
- SlidingWindows.SlidingWindow.Wait: requires limit ≥ 1, because with limit 0 the source indexes an empty list; so does Reserve.
- SlidingWindows.SlidingWindow.constructor: a negative limit, with which the source fails to make its list, is not a value here.
- Breakers.AfterSound: lifetime totals are unbounded here; the source's uint64 would wrap after 2^64 calls.
- AdaptiveBreakers.AdaptiveBreaker.Record: counters are unbounded; the source's uint32 would wrap after 2^32 calls without UpdateEMAs or a success.
- AdaptiveBreakers.AdaptiveBreaker.AdaptThreshold: requires min < max; for other bounds the source divides by zero or inverts its clamp.
- Bulkheads.Bulkhead.Execute: panics inside the function, which still release the slot, are not modelled.
- Backoffs.ExecuteRetries: the strategy must be one of the four of the package; a nil Backoff, on which the source panics after a failed call, is not a value here.
- Backoffs.JitterShortens: bounds the random delay but says nothing of its distribution.
- FallbackRuns.FallbackDisablesBreaker: that the breaker does trip when it can is stated for limiters that keep granting single tokens (positive rate, burst at least one), and so is TurnsAwayExactly.
- BreakerWindow.WindowIsIgnoredEarly: says nothing of window sizes within a hundred of 2^32, where too few calls below 2^32 lie outside the window; WindowIsIgnored covers them.
- BreakerWindow.WindowIsIgnored: is about count windows; of a time-based window the source keeps nothing that a decision could be compared with.
- Breaker `totalRejected` (incremented outside the lock), `GetMetrics` values, the `OnStateChange` callback and with it the adaptive `tripCount`; State and GetMetrics appear as the lazy step they take.
- `GetAdaptiveParams`: the effective timeout and slow-call duration are only reported and never reach the inner breaker.
- Concurrency of the function across a whole executor: the timeout layer lets a call outlive its bulkhead slot, so no such bound holds; timeout and bulkhead appear in the executor by what they let through.
- Go memory-model effects: each critical section is one atomic step, also where the source writes under a read lock.
- Configuration files, the file watcher, HTTP middleware, metrics exposition, the command line and the `pkg` aliases: plumbing.
