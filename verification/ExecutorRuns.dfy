/** Any number of executions of one executor, interleaved.

    The executions share the limiter's token bucket and the circuit breaker; each of them, seen
    alone, is so far a prefix of a trace its chain of layers can emit.  Other users of the limiter
    may take tokens too. */
module ExecutorRuns {
  import opened Executors
  import opened Naturals
  import Breakers
  import B = BreakerRuns
  import TB = TokenBuckets
  import R = Backoffs

  /** An execution's act, with the clock readings it makes. */
  datatype Act =
    | Wait(now: int)
    | Take(now: int)
    | Enter(now: int)
    | Bounce(now: int)
    | Call
    | Settle(err: Breakers.Option<Breakers.Error>, duration: int, stamp: int, began: int, now: int, tripAt: int)

  datatype Step =
    | Do(id: nat, act: Act)
    | Outside(now: int, n: nat)
    | Look(now: int)

  datatype Shop = Shop(limit: TB.Limit, config: Breakers.Config, setup: Setup, options: Options)

  /** `entered`: when the breaker last let each execution through. */
  datatype World = World(bucket: TB.Bucket, breaker: B.Sys, entered: map<nat, int>)

  function MarkOf(a: Act): Mark {
    match a
    case Wait(_) => Waited
    case Take(_) => Token
    case Enter(_) => Admitted
    case Bounce(_) => Turned
    case Call => Called
    case Settle(err, _, _, _, _, _) => Settled(err.None?)
  }

  /** The result the breaker makes of a call's error and duration. */
  function ResultIn(x: Shop, a: Act): Breakers.CallResult
    requires a.Settle?
  {
    Breakers.ResultOf(x.config, a.err, a.duration, a.stamp)
  }

  /** The bucket's and the breaker's answer decide which act a check turns out to be; a call's
      measured duration fits between its admission and its end. */
  ghost predicate Enabled(x: Shop, w: World, s: Step) {
    match s
    case Do(_, Wait(now)) => w.bucket.last <= now && !TB.Affords(x.limit, w.bucket, now, 1)
    case Do(_, Take(now)) => w.bucket.last <= now && TB.Affords(x.limit, w.bucket, now, 1)
    case Do(_, Enter(now)) =>
      B.Enabled(x.config, w.breaker, B.Begin(now)) && B.Admits(x.config, w.breaker, B.Begin(now))
    case Do(_, Bounce(now)) =>
      B.Enabled(x.config, w.breaker, B.Begin(now)) && !B.Admits(x.config, w.breaker, B.Begin(now))
    case Do(_, Call) => true
    case Do(id, Settle(_, duration, _, began, now, tripAt)) =>
      && id in w.entered && w.entered[id] == began && 0 <= duration <= now - began
      && B.Enabled(x.config, w.breaker, B.Finish(ResultIn(x, s.act), began, now, tripAt))
    case Outside(now, _) => w.bucket.last <= now
    case Look(now) => B.Enabled(x.config, w.breaker, B.Observe(now))
  }

  function BreakerEvents(x: Shop, s: Step): seq<B.Event> {
    match s
    case Do(_, Enter(now)) => [B.Begin(now)]
    case Do(_, Bounce(now)) => [B.Begin(now)]
    case Do(_, Settle(_, _, _, began, now, tripAt)) => [B.Finish(ResultIn(x, s.act), began, now, tripAt)]
    case Look(now) => [B.Observe(now)]
    case _ => []
  }

  function BucketAfter(x: Shop, b: TB.Bucket, s: Step): TB.Bucket {
    match s
    case Do(_, Wait(now)) => TB.Attempt(x.limit, b, now, 1)
    case Do(_, Take(now)) => TB.Attempt(x.limit, b, now, 1)
    case Outside(now, n) => TB.Attempt(x.limit, b, now, n)
    case _ => b
  }

  function Next(x: Shop, w: World, s: Step): World {
    World(BucketAfter(x, w.bucket, s), B.Run(x.config, w.breaker, BreakerEvents(x, s)),
          if s.Do? && s.act.Enter? then w.entered[s.id := s.act.now] else w.entered)
  }

  ghost predicate Legal(x: Shop, w: World, g: seq<Step>)
    decreases |g|
  {
    g != [] ==> Enabled(x, w, g[0]) && Legal(x, Next(x, w, g[0]), g[1..])
  }

  function Run(x: Shop, w: World, g: seq<Step>): World
    decreases |g|
  {
    if g == [] then w else Run(x, Next(x, w, g[0]), g[1..])
  }

  /** What execution `id` has done. */
  function Trace(g: seq<Step>, id: nat): seq<Mark> {
    if g == [] then []
    else (if g[0].Do? && g[0].id == id then [MarkOf(g[0].act)] else []) + Trace(g[1..], id)
  }

  /** Every execution is so far what the built chain may emit. */
  ghost predicate Faithful(x: Shop, g: seq<Step>) {
    forall id :: Possible(x.setup, Built(x.options), Trace(g, id))
  }

  /** Marks left by all executions below `n`. */
  function Marks(g: seq<Step>, m: Mark, n: nat): nat {
    if g == [] then 0
    else (if g[0].Do? && g[0].id < n && MarkOf(g[0].act) == m then 1 else 0) + Marks(g[1..], m, n)
  }

  function All(g: seq<Step>, m: Mark): nat {
    if g == [] then 0
    else (if g[0].Do? && MarkOf(g[0].act) == m then 1 else 0) + All(g[1..], m)
  }

  // ------------------------------------------------------------------ the retry layer

  /** The first `k` attempts' traces. */
  function FirstParts(part: nat -> seq<Mark>, k: nat): seq<seq<Mark>> {
    seq(k, (i: nat) => part(i))
  }

  /** The retry layer of the chain is the retry loop: if attempt i leaves trace `part(i)` and returns
      what the loop saw, the loop's run is a trace of the layer, returning as the loop does. */
  lemma RetryLayerIsLoop(u: Setup, inner: Chain, s: R.Strategy, env: R.Env, part: nat -> seq<Mark>)
    requires u.attempts == R.MaxAttempts(s)
    requires forall i: nat :: Emits(u, inner, part(i), env.fn(i).Success?)
    ensures var k := R.FirstStop(s, env, 0);
      Emits(u, Wrap(Retry, inner), Concat(FirstParts(part, k + 1)), R.OutcomeAt(s, env, k).Done?)
  {
    var k := R.FirstStop(s, env, 0);
    var parts := FirstParts(part, k + 1);
    forall i | 0 <= i < |parts| - 1
      ensures Emits(u, inner, parts[i], false)
    {
      assert !R.Stops(s, env, i);
      assert Emits(u, inner, part(i), env.fn(i).Success?);
    }
    assert Emits(u, inner, part(k), env.fn(k).Success?);
    assert Retried(u, inner, Concat(parts), env.fn(k).Success?, parts);
  }

  // ------------------------------------------------------------------ summing over executions

  lemma {:induction false} OneMore(g: seq<Step>, m: Mark, n: nat)
    ensures Marks(g, m, n + 1) == Marks(g, m, n) + Count(Trace(g, n), m)
  {
    if g != [] {
      OneMore(g[1..], m, n);
      if g[0].Do? && g[0].id == n {
        CountConcat([MarkOf(g[0].act)], Trace(g[1..], n), m);
        CountOne(MarkOf(g[0].act), m);
      } else {
        assert Trace(g, n) == [] + Trace(g[1..], n) == Trace(g[1..], n);
      }
    }
  }

  lemma {:induction false} MarksOfNone(g: seq<Step>, m: Mark)
    ensures Marks(g, m, 0) == 0
  {
    if g != [] {
      MarksOfNone(g[1..], m);
    }
  }

  /** A number above every execution's. */
  function Bound(g: seq<Step>): (n: nat)
    ensures forall i :: 0 <= i < |g| && g[i].Do? ==> g[i].id < n
  {
    if g == [] then 0
    else
      var rest := Bound(g[1..]);
      assert forall i :: 0 < i < |g| ==> g[i] == g[1..][i - 1];
      if g[0].Do? && g[0].id >= rest then g[0].id + 1 else rest
  }

  lemma {:induction false} MarksOfAll(g: seq<Step>, m: Mark, n: nat)
    requires forall i :: 0 <= i < |g| && g[i].Do? ==> g[i].id < n
    ensures Marks(g, m, n) == All(g, m)
  {
    if g != [] {
      MarksOfAll(g[1..], m, n);
    }
  }

  lemma {:induction false} CallsBelow(x: Shop, g: seq<Step>, n: nat)
    requires Faithful(x, g) && x.options.rateLimiter
    ensures Marks(g, Called, n) <= Product(MostCalls(x.setup, x.options), Marks(g, Token, n))
  {
    var k := MostCalls(x.setup, x.options);
    if n == 0 {
      MarksOfNone(g, Called);
      assert Product(k, Marks(g, Token, 0)) >= 0;
    } else {
      hide Marks, Trace, Count, Possible, MostCalls;
      CallsBelow(x, g, n - 1);
      OneMore(g, Called, n - 1);
      OneMore(g, Token, n - 1);
      assert Possible(x.setup, Built(x.options), Trace(g, n - 1));
      CallsNeedToken(x.setup, x.options, Trace(g, n - 1));
      ProductAdds(k, Marks(g, Token, n - 1), Count(Trace(g, n - 1), Token));
    }
  }

  lemma {:induction false} CallsAdmittedBelow(x: Shop, g: seq<Step>, n: nat)
    requires Faithful(x, g) && x.options.circuitBreaker
    ensures Marks(g, Called, n) <= Marks(g, Admitted, n)
  {
    if n == 0 {
      MarksOfNone(g, Called);
    } else {
      CallsAdmittedBelow(x, g, n - 1);
      OneMore(g, Called, n - 1);
      OneMore(g, Admitted, n - 1);
      assert Possible(x.setup, Built(x.options), Trace(g, n - 1));
      CallsNeedAdmission(x.setup, x.options, Trace(g, n - 1));
    }
  }

  // ------------------------------------------------------------------ the shared limiter

  /** Every token taken is a grant of the bucket. */
  lemma {:induction false} TokensAreGrants(x: Shop, w: World, gs: seq<TB.Grant>, g: seq<Step>, from: int)
    returns (gs': seq<TB.Grant>)
    requires TB.Tracks(x.limit, w.bucket, gs) && Legal(x, w, g)
    requires from <= w.bucket.last && forall i :: 0 <= i < |gs| ==> from <= gs[i].time
    ensures TB.Tracks(x.limit, Run(x, w, g).bucket, gs')
    ensures TB.Total(gs') >= TB.Total(gs) + All(g, Token)
    ensures from <= Run(x, w, g).bucket.last && forall i :: 0 <= i < |gs'| ==> from <= gs'[i].time
    decreases |g|
  {
    if g == [] {
      gs' := gs;
    } else {
      var mid := GrantOfStep(x, w, gs, g[0], from);
      gs' := TokensAreGrants(x, Next(x, w, g[0]), mid, g[1..], from);
    }
  }

  lemma GrantOfStep(x: Shop, w: World, gs: seq<TB.Grant>, s: Step, from: int) returns (gs': seq<TB.Grant>)
    requires TB.Tracks(x.limit, w.bucket, gs) && Enabled(x, w, s)
    requires from <= w.bucket.last && forall i :: 0 <= i < |gs| ==> from <= gs[i].time
    ensures TB.Tracks(x.limit, Next(x, w, s).bucket, gs')
    ensures TB.Total(gs') >= TB.Total(gs) + (if s.Do? && MarkOf(s.act) == Token then 1 else 0)
    ensures from <= Next(x, w, s).bucket.last && forall i :: 0 <= i < |gs'| ==> from <= gs'[i].time
  {
    match s
    case Do(_, Wait(now)) => gs' := GrantOfTry(x, w.bucket, gs, now, 1);
    case Do(_, Take(now)) => gs' := GrantOfTry(x, w.bucket, gs, now, 1);
    case Outside(now, n) => gs' := GrantOfTry(x, w.bucket, gs, now, n);
    case _ => gs' := gs;
  }

  lemma GrantOfTry(x: Shop, b: TB.Bucket, gs: seq<TB.Grant>, now: int, n: nat) returns (gs': seq<TB.Grant>)
    requires TB.Tracks(x.limit, b, gs) && b.last <= now
    ensures TB.Tracks(x.limit, TB.Attempt(x.limit, b, now, n), gs')
    ensures gs' == if TB.Affords(x.limit, b, now, n) then gs + [TB.Grant(now, n)] else gs
    ensures TB.Total(gs') == TB.Total(gs) + (if TB.Affords(x.limit, b, now, n) then n else 0)
    ensures TB.Attempt(x.limit, b, now, n).last == now
  {
    TB.AttemptTracks(x.limit, b, gs, now, n);
    TB.TotalAppend(gs, TB.Grant(now, n));
    gs' := if TB.Affords(x.limit, b, now, n) then gs + [TB.Grant(now, n)] else gs;
  }

  /** A shop whose limiter starts full at `from`. */
  function Opening(x: Shop, breaker: B.Sys, from: int): World {
    World(TB.Bucket(x.limit.burst as real, from), breaker, map[])
  }

  lemma TokensWithinLaw(x: Shop, breaker: B.Sys, from: int, g: seq<Step>)
    requires x.limit.rate >= 0.0 && Legal(x, Opening(x, breaker, from), g)
    ensures All(g, Token) as real
         <= x.limit.burst as real + TB.Refill(x.limit, from, Run(x, Opening(x, breaker, from), g).bucket.last)
  {
    hide TB.Refill;
    var w := Opening(x, breaker, from);
    TB.NewBucketTracks(x.limit, from);
    var gs := TokensAreGrants(x, w, [], g, from);
    var end := Run(x, w, g).bucket.last;
    TB.GrantedInAll(gs, from, end);
    assert TB.GrantedIn(gs, from, end) as real <= x.limit.burst as real + TB.Refill(x.limit, from, end);
  }

  lemma CallsPerToken(x: Shop, g: seq<Step>)
    requires Faithful(x, g) && x.options.rateLimiter
    ensures All(g, Called) <= Product(MostCalls(x.setup, x.options), All(g, Token))
  {
    var n := Bound(g);
    CallsBelow(x, g, n);
    MarksOfAll(g, Called, n);
    MarksOfAll(g, Token, n);
  }

  /** Throughput: by any instant the function has been called, over all executions, at most once per
      permitted attempt for each token that the rate law allows since the limiter started. */
  lemma ThroughputBounded(x: Shop, breaker: B.Sys, from: int, g: seq<Step>)
    requires x.limit.rate >= 0.0 && x.options.rateLimiter
    requires Legal(x, Opening(x, breaker, from), g) && Faithful(x, g)
    ensures var end := Run(x, Opening(x, breaker, from), g).bucket.last;
      All(g, Called) as real
        <= MostCalls(x.setup, x.options) as real * (x.limit.burst as real + TB.Refill(x.limit, from, end))
  {
    hide TB.Refill, Product, All, Run, Legal, Faithful;
    TokensWithinLaw(x, breaker, from, g);
    CallsPerToken(x, g);
    ScaleBound(MostCalls(x.setup, x.options), All(g, Token), All(g, Called),
               x.limit.burst as real + TB.Refill(x.limit, from, Run(x, Opening(x, breaker, from), g).bucket.last));
  }

  lemma ScaleBound(k: nat, tokens: nat, calls: nat, most: real)
    requires calls <= Product(k, tokens) && tokens as real <= most
    ensures calls as real <= k as real * most
  {
    assert (k * tokens) as real == k as real * tokens as real;
    assert k as real * (most - tokens as real) >= 0.0;
  }

  // ------------------------------------------------------------------ the shared breaker

  function BreakerRun(x: Shop, g: seq<Step>): seq<B.Event> {
    if g == [] then [] else BreakerEvents(x, g[0]) + BreakerRun(x, g[1..])
  }

  lemma StepProjects(x: Shop, w: World, s: Step)
    requires Enabled(x, w, s)
    ensures B.Legal(x.config, w.breaker, BreakerEvents(x, s))
    ensures B.Admissions(x.config, w.breaker, BreakerEvents(x, s))
         == if s.Do? && MarkOf(s.act) == Admitted then 1 else 0
  {
    var es := BreakerEvents(x, s);
    if es != [] {
      assert es[1..] == [];
      var b := B.Next(x.config, w.breaker, es[0]);
      assert B.Legal(x.config, b, []) && B.Admissions(x.config, b, []) == 0;
    }
  }

  /** The shared breaker sees one run of its own, in which exactly the executions' admissions are
      let through. */
  lemma {:induction false} ProjectsToBreaker(x: Shop, w: World, g: seq<Step>)
    requires Legal(x, w, g)
    ensures B.Legal(x.config, w.breaker, BreakerRun(x, g))
    ensures B.Run(x.config, w.breaker, BreakerRun(x, g)) == Run(x, w, g).breaker
    ensures B.Admissions(x.config, w.breaker, BreakerRun(x, g)) == All(g, Admitted)
    decreases |g|
  {
    if g != [] {
      StepProjects(x, w, g[0]);
      ProjectsToBreaker(x, Next(x, w, g[0]), g[1..]);
      B.OneStep(x.config, w.breaker, BreakerEvents(x, g[0]), BreakerRun(x, g[1..]));
    }
  }

  /** Over all executions the function is called at most once per admission of the breaker. */
  lemma CallsAdmitted(x: Shop, w: World, g: seq<Step>)
    requires Legal(x, w, g) && Faithful(x, g) && x.options.circuitBreaker
    ensures All(g, Called) <= B.Admissions(x.config, w.breaker, BreakerRun(x, g))
  {
    var n := Bound(g);
    CallsAdmittedBelow(x, g, n);
    MarksOfAll(g, Called, n);
    MarksOfAll(g, Admitted, n);
    ProjectsToBreaker(x, w, g);
  }

  lemma {:induction false} AllSplits(a: seq<Step>, b: seq<Step>, m: Mark)
    ensures All(a + b, m) == All(a, m) + All(b, m)
  {
    if a == [] {
      assert a + b == b;
    } else {
      assert (a + b)[0] == a[0] && (a + b)[1..] == a[1..] + b;
      AllSplits(a[1..], b, m);
    }
  }

  /** Probe throttling reaches the function: while the breaker has been tripped, executions have
      called the function at most maxRequests times per elapsed timeout, plus the admissions not
      yet used when it tripped. */
  lemma TrippedCallsThrottled(x: Shop, w: World, before: seq<Step>, since: seq<Step>)
    requires x.options.circuitBreaker && x.config.timeout > 0
    requires Legal(x, w, before) && Faithful(x, before + since)
    requires var mid := Run(x, w, before);
      && Legal(x, mid, since) && B.Good(x.config, mid.breaker) && mid.breaker.core.phase == Breakers.Open
      && B.NeverCloses(x.config, mid.breaker, BreakerRun(x, since))
    ensures var mid := Run(x, w, before).breaker;
      var end := Run(x, Run(x, w, before), since).breaker;
      All(since, Called) + All(before, Called)
        <= B.ProbeBudget(x.config, mid.core.openSince, end.clock) + All(before, Admitted)
  {
    var g := before + since;
    var n := Bound(g);
    CallsAdmittedBelow(x, g, n);
    MarksOfAll(g, Called, n);
    MarksOfAll(g, Admitted, n);
    AllSplits(before, since, Called);
    AllSplits(before, since, Admitted);
    var mid := Run(x, w, before);
    ProjectsToBreaker(x, mid, since);
    B.ProbesThrottled(x.config, mid.breaker, BreakerRun(x, since));
  }
}
