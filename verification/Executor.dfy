/** The composite executor of pkg/resilience/executor.go.

    Execute wraps the function in the configured layers one after the other.  `Emits` says which
    traces of limiter checks, breaker decisions and function calls one execution of a chain of
    layers can produce, and whether it returns without an error; the layers that are other modules'
    business here appear only by what they let through. */
module Executors {
  import opened Naturals

  datatype Layer = Fallback | CircuitBreaker | Retry | RateLimiter | Timeout | Bulkhead

  datatype Options = Options(
    fallback: bool,
    circuitBreaker: bool,
    retry: bool,
    rateLimiter: bool,
    timeout: bool,
    bulkhead: bool)

  /** The closures: the function, or a layer around another closure. */
  datatype Chain = Fn | Wrap(layer: Layer, inner: Chain)

  /** The layers of a chain, outermost first. */
  function Layers(c: Chain): seq<Layer> {
    match c
    case Fn => []
    case Wrap(layer, inner) => [layer] + Layers(inner)
  }

  /** A layer, if it is configured. */
  function When(configured: bool, layer: Layer): seq<Layer> {
    if configured then [layer] else []
  }

  /** The configured patterns in the order the source lists them. */
  function Patterns(o: Options): seq<Layer> {
    When(o.fallback, Fallback) + When(o.circuitBreaker, CircuitBreaker) + When(o.retry, Retry)
    + When(o.rateLimiter, RateLimiter) + When(o.timeout, Timeout) + When(o.bulkhead, Bulkhead)
  }

  function Reverse(xs: seq<Layer>): seq<Layer> {
    if xs == [] then [] else Reverse(xs[1..]) + [xs[0]]
  }

  function WrapIf(configured: bool, layer: Layer, c: Chain): Chain {
    if configured then Wrap(layer, c) else c
  }

  /** The chain that Execute runs. */
  function Built(o: Options): Chain {
    WrapIf(o.bulkhead, Bulkhead, WrapIf(o.timeout, Timeout, WrapIf(o.rateLimiter, RateLimiter, Attempts(o))))
  }

  /** Its part below the limiter. */
  function Attempts(o: Options): Chain {
    WrapIf(o.retry, Retry, Guarded(o))
  }

  /** Its part below the retry loop. */
  function Guarded(o: Options): Chain {
    WrapIf(o.circuitBreaker, CircuitBreaker, WrapIf(o.fallback, Fallback, Fn))
  }

  /** The assignments of Execute, in order. */
  method BuildChain(o: Options) returns (exec: Chain)
    ensures exec == Built(o)
    ensures Layers(exec) == Reverse(Patterns(o))
  {
    exec := Fn;
    if o.fallback {
      exec := Wrap(Fallback, exec);
    }
    if o.circuitBreaker {
      exec := Wrap(CircuitBreaker, exec);
    }
    if o.retry {
      exec := Wrap(Retry, exec);
    }
    if o.rateLimiter {
      exec := Wrap(RateLimiter, exec);
    }
    if o.timeout {
      exec := Wrap(Timeout, exec);
    }
    if o.bulkhead {
      exec := Wrap(Bulkhead, exec);
    }
    BuiltIsReversed(o);
  }

  lemma {:induction false} ReverseConcat(xs: seq<Layer>, ys: seq<Layer>)
    ensures Reverse(xs + ys) == Reverse(ys) + Reverse(xs)
  {
    if xs == [] {
      assert xs + ys == ys;
    } else {
      assert (xs + ys)[0] == xs[0] && (xs + ys)[1..] == xs[1..] + ys;
      ReverseConcat(xs[1..], ys);
    }
  }

  lemma ReverseWhen(configured: bool, layer: Layer)
    ensures Reverse(When(configured, layer)) == When(configured, layer)
  {
    assert [layer][1..] == [];
    assert Reverse([]) == [];
  }

  lemma WrapIfLayers(configured: bool, layer: Layer, c: Chain)
    ensures Layers(WrapIf(configured, layer, c)) == When(configured, layer) + Layers(c)
  {
  }

  /** The first pattern listed is the innermost layer. */
  lemma BuiltIsReversed(o: Options)
    ensures Layers(Built(o)) == Reverse(Patterns(o))
  {
    hide Layers, Reverse, When, WrapIf;
    var p1 := When(o.fallback, Fallback);
    var p2 := p1 + When(o.circuitBreaker, CircuitBreaker);
    var p3 := p2 + When(o.retry, Retry);
    var p4 := p3 + When(o.rateLimiter, RateLimiter);
    var p5 := p4 + When(o.timeout, Timeout);
    var c1 := WrapIf(o.fallback, Fallback, Fn);
    NoLayers();
    WrapIfLayers(o.fallback, Fallback, Fn);
    ReverseWhen(o.fallback, Fallback);
    assert Layers(c1) == Reverse(p1);
    Extend(p1, c1, o.circuitBreaker, CircuitBreaker);
    Extend(p2, Guarded(o), o.retry, Retry);
    Extend(p3, Attempts(o), o.rateLimiter, RateLimiter);
    var c4 := WrapIf(o.rateLimiter, RateLimiter, Attempts(o));
    Extend(p4, c4, o.timeout, Timeout);
    Extend(p5, WrapIf(o.timeout, Timeout, c4), o.bulkhead, Bulkhead);
  }

  lemma NoLayers()
    ensures Layers(Fn) == []
  {
  }

  lemma Extend(p: seq<Layer>, c: Chain, configured: bool, layer: Layer)
    requires Layers(c) == Reverse(p)
    ensures Layers(WrapIf(configured, layer, c)) == Reverse(p + When(configured, layer))
  {
    WrapIfLayers(configured, layer, c);
    ReverseConcat(p, When(configured, layer));
    ReverseWhen(configured, layer);
  }

  lemma {:induction false} ReverseEnds(xs: seq<Layer>)
    requires xs != []
    ensures |Reverse(xs)| == |xs| && Reverse(xs)[|xs| - 1] == xs[0]
    ensures Reverse(xs)[0] == xs[|xs| - 1]
  {
    if |xs| > 1 {
      ReverseEnds(xs[1..]);
    } else {
      assert xs[1..] == [] && Reverse([]) == [];
    }
  }

  /** With everything configured. */
  lemma FullStack(o: Options)
    requires o == Options(true, true, true, true, true, true)
    ensures Layers(Built(o)) == [Bulkhead, Timeout, RateLimiter, Retry, CircuitBreaker, Fallback]
  {
    var f := Wrap(Fallback, Fn);
    var r := Wrap(Retry, Wrap(CircuitBreaker, f));
    assert Layers(f) == [Fallback];
    assert Layers(r) == [Retry, CircuitBreaker, Fallback];
    assert Layers(Wrap(Timeout, Wrap(RateLimiter, r))) == [Timeout, RateLimiter, Retry, CircuitBreaker, Fallback];
  }

  /** The layering is the documented one, the first pattern outermost, exactly when at most one
      layer is configured. */
  lemma DocumentedOrder(o: Options)
    ensures Layers(Built(o)) == Patterns(o) <==> |Patterns(o)| <= 1
  {
    var p := Patterns(o);
    BuiltIsReversed(o);
    if p != [] {
      ReverseEnds(p);
      PatternsDistinct(o);
    } else {
      assert Reverse(p) == [];
    }
    if |p| == 1 {
      assert Reverse(p) == p;
    }
  }

  lemma PatternsDistinct(o: Options)
    ensures |Patterns(o)| > 1 ==> Patterns(o)[0] != Patterns(o)[|Patterns(o)| - 1]
  {
    var p := Patterns(o);
    if o.bulkhead {
      assert p == (When(o.fallback, Fallback) + When(o.circuitBreaker, CircuitBreaker) + When(o.retry, Retry)
                   + When(o.rateLimiter, RateLimiter) + When(o.timeout, Timeout)) + [Bulkhead];
    }
  }

  // ------------------------------------------------------------------ traces of one execution

  /** A refused limiter check, a token taken; a call let through or turned away by the breaker; a
      call of the function; the breaker told of success or failure. */
  datatype Mark = Waited | Token | Admitted | Turned | Called | Settled(ok: bool)

  /** `attempts`: most attempts of the retry loop.  `catchAll`: the fallback never fails.
      `timeLimit`: the timeout layer's duration, which limits nothing unless it is positive. */
  datatype Setup = Setup(attempts: nat, catchAll: bool, timeLimit: int)

  function Concat(parts: seq<seq<Mark>>): seq<Mark> {
    if parts == [] then [] else parts[0] + Concat(parts[1..])
  }

  function Waits(k: nat): seq<Mark> {
    if k == 0 then [] else [Waited] + Waits(k - 1)
  }

  /** One execution of the chain can leave trace `t` and return without an error just if `ok`. */
  ghost predicate Emits(u: Setup, c: Chain, t: seq<Mark>, ok: bool)
    decreases c, 0
  {
    match c
    case Fn => t == [Called]
    case Wrap(layer, inner) =>
      match layer
      case Fallback => exists r :: Emits(u, inner, t, r) && (if r || u.catchAll then ok else true)
      case CircuitBreaker =>
        || (t == [Turned] && !ok)
        || (exists mid :: t == [Admitted] + mid + [Settled(ok)] && Emits(u, inner, mid, ok))
      case Retry => exists parts: seq<seq<Mark>> :: Retried(u, inner, t, ok, parts)
      case RateLimiter => exists k :: LimitedBy(u, inner, t, ok, k)
      case Timeout => exists r :: Emits(u, inner, t, r) && Timed(u, r, ok)
      case Bulkhead => (t == [] && !ok) || Emits(u, inner, t, ok)
  }

  /** A positive time limit can turn a result into an error, and nothing else does. */
  predicate Timed(u: Setup, r: bool, ok: bool) {
    ok == r || (u.timeLimit > 0 && !ok)
  }

  /** `k` refused checks, the last followed by cancellation, or a token and the inner chain. */
  ghost predicate LimitedBy(u: Setup, inner: Chain, t: seq<Mark>, ok: bool, k: nat)
    decreases inner, 1
  {
    || (k >= 1 && t == Waits(k) && !ok)
    || (|t| > k && t[..k] == Waits(k) && t[k] == Token && Emits(u, inner, t[k + 1..], ok))
  }

  /** Attempts that fail, then one that ends the loop: by success, by exhaustion, by an error not
      to be retried or by cancellation. */
  ghost predicate Retried(u: Setup, inner: Chain, t: seq<Mark>, ok: bool, parts: seq<seq<Mark>>)
    decreases inner, 1
  {
    && 1 <= |parts| <= u.attempts
    && t == Concat(parts)
    && (forall i :: 0 <= i < |parts| - 1 ==> Emits(u, inner, parts[i], false))
    && Emits(u, inner, parts[|parts| - 1], ok)
  }

  function Count(t: seq<Mark>, m: Mark): nat {
    if t == [] then 0 else (if t[0] == m then 1 else 0) + Count(t[1..], m)
  }

  lemma {:induction false} CountConcat(a: seq<Mark>, b: seq<Mark>, m: Mark)
    ensures Count(a + b, m) == Count(a, m) + Count(b, m)
  {
    if a == [] {
      assert a + b == b;
    } else {
      assert (a + b)[0] == a[0] && (a + b)[1..] == a[1..] + b;
      CountConcat(a[1..], b, m);
    }
  }

  lemma CountOne(x: Mark, m: Mark)
    ensures Count([x], m) == if x == m then 1 else 0
  {
    assert [x][1..] == [];
    assert Count([], m) == 0;
  }

  lemma CountPrefix(p: seq<Mark>, t: seq<Mark>, m: Mark)
    requires p <= t
    ensures Count(p, m) <= Count(t, m)
  {
    assert t == p + t[|p|..];
    CountConcat(p, t[|p|..], m);
  }

  lemma {:induction false} WaitsCount(k: nat, m: Mark)
    ensures |Waits(k)| == k
    ensures m != Waited ==> Count(Waits(k), m) == 0
  {
    if k > 0 {
      assert Waits(k)[1..] == Waits(k - 1);
      WaitsCount(k - 1, m);
    }
  }

  /** Most marks of a kind one execution can leave: a retry loop multiplies what is inside it. */
  function Most(u: Setup, c: Chain, m: Mark): nat {
    match c
    case Fn => if m == Called then 1 else 0
    case Wrap(layer, inner) =>
      var n := Most(u, inner, m);
      match layer
      case Retry => Product(u.attempts, n)
      case RateLimiter => n + (if m == Token then 1 else 0)
      case CircuitBreaker =>
        n + (if m == Admitted || m == Turned || m == Settled(true)
                || (m == Settled(false) && !NeverFails(u, inner)) then 1 else 0)
      case _ => n
  }

  /** Outside a fallback that never fails there is nothing that can refuse. */
  predicate NeverFails(u: Setup, c: Chain) {
    match c
    case Fn => false
    case Wrap(layer, inner) =>
      match layer
      case Fallback => u.catchAll || NeverFails(u, inner)
      case Retry => NeverFails(u, inner)
      case Timeout => u.timeLimit <= 0 && NeverFails(u, inner)
      case _ => false
  }

  lemma {:induction false} NeverFailsIsOk(u: Setup, c: Chain, t: seq<Mark>, ok: bool)
    requires Emits(u, c, t, ok) && NeverFails(u, c)
    ensures ok
    decreases c
  {
    if c.layer == Retry {
      var parts: seq<seq<Mark>> :| Retried(u, c.inner, t, ok, parts);
      NeverFailsIsOk(u, c.inner, parts[|parts| - 1], ok);
    } else if c.layer == Timeout {
      var r :| Emits(u, c.inner, t, r) && Timed(u, r, ok);
      NeverFailsIsOk(u, c.inner, t, r);
    } else {
      var r :| Emits(u, c.inner, t, r) && (if r || u.catchAll then ok else true);
      if NeverFails(u, c.inner) {
        NeverFailsIsOk(u, c.inner, t, r);
      }
    }
  }

  lemma {:induction false} PartsCount(parts: seq<seq<Mark>>, m: Mark, n: nat)
    requires forall i :: 0 <= i < |parts| ==> Count(parts[i], m) <= n
    ensures Count(Concat(parts), m) <= Product(|parts|, n)
  {
    if parts == [] {
    } else {
      PartsCount(parts[1..], m, n);
      CountConcat(parts[0], Concat(parts[1..]), m);
      ProductSteps(|parts|, n);
    }
  }

  /** No trace of any chain has more than `Most` calls, tokens or decisions. */
  lemma {:induction false} TraceBounded(u: Setup, c: Chain, t: seq<Mark>, ok: bool, m: Mark)
    requires Emits(u, c, t, ok) && m != Waited
    ensures Count(t, m) <= Most(u, c, m)
    decreases c
  {
    match c
    case Fn => CountOne(Called, m);
    case Wrap(layer, inner) =>
      match layer {
        case Fallback =>
          var r :| Emits(u, inner, t, r) && (if r || u.catchAll then ok else true);
          TraceBounded(u, inner, t, r, m);
        case CircuitBreaker => BreakerBounded(u, c, t, ok, m);
        case Retry =>
          var parts: seq<seq<Mark>> :| Retried(u, inner, t, ok, parts);
          forall i | 0 <= i < |parts|
            ensures Count(parts[i], m) <= Most(u, inner, m)
          {
            TraceBounded(u, inner, parts[i], if i < |parts| - 1 then false else ok, m);
          }
          PartsCount(parts, m, Most(u, inner, m));
          ProductMonotone(|parts|, u.attempts, Most(u, inner, m), Most(u, inner, m));
        case RateLimiter => LimiterBounded(u, c, t, ok, m);
        case Timeout =>
          var r :| Emits(u, inner, t, r) && Timed(u, r, ok);
          TraceBounded(u, inner, t, r, m);
        case Bulkhead =>
          if t != [] || ok {
            TraceBounded(u, inner, t, ok, m);
          }
      }
  }

  lemma {:induction false} BreakerBounded(u: Setup, c: Chain, t: seq<Mark>, ok: bool, m: Mark)
    requires c.Wrap? && c.layer == CircuitBreaker && Emits(u, c, t, ok) && m != Waited
    ensures Count(t, m) <= Most(u, c, m)
    decreases c, 0
  {
    if t == [Turned] && !ok {
      CountOne(Turned, m);
    } else {
      var mid :| t == [Admitted] + mid + [Settled(ok)] && Emits(u, c.inner, mid, ok);
      TraceBounded(u, c.inner, mid, ok, m);
      if NeverFails(u, c.inner) {
        NeverFailsIsOk(u, c.inner, mid, ok);
      }
      CountConcat([Admitted] + mid, [Settled(ok)], m);
      CountConcat([Admitted], mid, m);
      CountOne(Admitted, m);
      CountOne(Settled(ok), m);
    }
  }

  lemma {:induction false} LimiterBounded(u: Setup, c: Chain, t: seq<Mark>, ok: bool, m: Mark)
    requires c.Wrap? && c.layer == RateLimiter && Emits(u, c, t, ok) && m != Waited
    ensures Count(t, m) <= Most(u, c, m)
    decreases c, 0
  {
    var k :| LimitedBy(u, c.inner, t, ok, k);
    WaitsCount(k, m);
    if !(t == Waits(k) && !ok) {
      TraceBounded(u, c.inner, t[k + 1..], ok, m);
      assert t == Waits(k) + ([Token] + t[k + 1..]);
      CountConcat(Waits(k), [Token] + t[k + 1..], m);
      CountConcat([Token], t[k + 1..], m);
      CountOne(Token, m);
    }
  }

  // ------------------------------------------------------------------ the built chain

  /** Calls the retry loop of the options may make. */
  function MostCalls(u: Setup, o: Options): nat {
    if o.retry then u.attempts else 1
  }

  lemma AttemptsMost(u: Setup, o: Options)
    ensures Most(u, Attempts(o), Called) == MostCalls(u, o)
    ensures Most(u, Attempts(o), Token) == 0
    ensures Most(u, Built(o), Called) == MostCalls(u, o)
    ensures Most(u, Built(o), Token) == if o.rateLimiter then 1 else 0
  {
    var f := WrapIf(o.fallback, Fallback, Fn);
    assert Most(u, Fn, Called) == 1 && Most(u, Fn, Token) == 0;
    assert Most(u, f, Called) == 1;
    assert Most(u, f, Token) == 0;
    assert Most(u, Guarded(o), Called) == 1 && Most(u, Guarded(o), Token) == 0;
    var l := WrapIf(o.rateLimiter, RateLimiter, Attempts(o));
    assert Most(u, l, Called) == MostCalls(u, o);
    var t := WrapIf(o.timeout, Timeout, l);
    assert Most(u, t, Called) == MostCalls(u, o) && Most(u, t, Token) == Most(u, l, Token);
  }

  /** One execution takes at most one token, whatever its retries, and calls the function at most
      once per permitted attempt. */
  lemma OneTokenPerExecution(u: Setup, o: Options, t: seq<Mark>, ok: bool)
    requires Emits(u, Built(o), t, ok)
    ensures Count(t, Token) <= 1
    ensures Count(t, Called) <= MostCalls(u, o)
  {
    AttemptsMost(u, o);
    TraceBounded(u, Built(o), t, ok, Token);
    TraceBounded(u, Built(o), t, ok, Called);
  }

  ghost predicate Possible(u: Setup, c: Chain, p: seq<Mark>) {
    exists t, ok :: Emits(u, c, t, ok) && p <= t
  }

  /** At every moment of an execution: the calls made are at most the attempts per token taken. */
  lemma CallsNeedToken(u: Setup, o: Options, p: seq<Mark>)
    requires o.rateLimiter && Possible(u, Built(o), p)
    ensures Count(p, Called) <= Product(MostCalls(u, o), Count(p, Token))
  {
    hide Emits, Most, Built, Attempts;
    var t, ok :| Emits(u, Built(o), t, ok) && p <= t;
    OneTokenPerExecution(u, o, t, ok);
    CountPrefix(p, t, Called);
    CountPrefix(p, t, Token);
    var below := Peel(u, o, t, ok);
    var k :| LimitedBy(u, Attempts(o), t, below, k) || t == [];
    WaitsCount(k, Called);
    if Count(p, Token) == 0 {
      if t == [] || t == Waits(k) {
        CountPrefix(p, t, Called);
      } else {
        NoTokenYet(p, t, k);
      }
    } else {
      ProductSteps(1, MostCalls(u, o));
    }
  }

  /** The limiter's trace inside the timeout and bulkhead layers. */
  lemma Peel(u: Setup, o: Options, t: seq<Mark>, ok: bool) returns (below: bool)
    requires o.rateLimiter && Emits(u, Built(o), t, ok)
    ensures t == [] || exists k :: LimitedBy(u, Attempts(o), t, below, k)
  {
    var l := Wrap(RateLimiter, Attempts(o));
    var c := WrapIf(o.timeout, Timeout, l);
    assert Built(o) == WrapIf(o.bulkhead, Bulkhead, c);
    below := ok;
    if o.bulkhead {
      assert Emits(u, Wrap(Bulkhead, c), t, ok);
      if t == [] {
        return;
      }
    }
    assert Emits(u, c, t, ok);
    if o.timeout {
      assert Emits(u, Wrap(Timeout, l), t, ok);
      below :| Emits(u, l, t, below) && Timed(u, below, ok);
    }
    assert Emits(u, l, t, below);
    var k :| LimitedBy(u, Attempts(o), t, below, k);
  }

  /** A prefix without the token stops within the waits before it. */
  lemma NoTokenYet(p: seq<Mark>, t: seq<Mark>, k: nat)
    requires p <= t && |t| > k && t[..k] == Waits(k) && t[k] == Token && Count(p, Token) == 0
    ensures Count(p, Called) == 0
  {
    if |p| > k {
      assert p == p[..k] + ([Token] + p[k + 1..]);
      CountConcat(p[..k], [Token] + p[k + 1..], Token);
      CountConcat([Token], p[k + 1..], Token);
      CountOne(Token, Token);
      assert false;
    }
    assert p == t[..|p|] == Waits(k)[..|p|];
    CountPrefix(p, Waits(k), Called);
    WaitsCount(k, Called);
  }

  /** The chain the guide draws: the first pattern outermost. */
  function Documented(o: Options): Chain {
    WrapIf(o.fallback, Fallback, WrapIf(o.circuitBreaker, CircuitBreaker, DocumentedAttempts(o)))
  }

  function DocumentedAttempts(o: Options): Chain {
    WrapIf(o.retry, Retry, WrapIf(o.rateLimiter, RateLimiter, Innermost(o)))
  }

  function Innermost(o: Options): Chain {
    WrapIf(o.timeout, Timeout, WrapIf(o.bulkhead, Bulkhead, Fn))
  }

  lemma DocumentedLayers(o: Options)
    ensures Layers(Documented(o)) == Patterns(o)
  {
    hide Layers;
    NoLayers();
    WrapIfLayers(o.bulkhead, Bulkhead, Fn);
    WrapIfLayers(o.timeout, Timeout, WrapIf(o.bulkhead, Bulkhead, Fn));
    WrapIfLayers(o.rateLimiter, RateLimiter, Innermost(o));
    WrapIfLayers(o.retry, Retry, WrapIf(o.rateLimiter, RateLimiter, Innermost(o)));
    WrapIfLayers(o.circuitBreaker, CircuitBreaker, DocumentedAttempts(o));
    WrapIfLayers(o.fallback, Fallback, WrapIf(o.circuitBreaker, CircuitBreaker, DocumentedAttempts(o)));
    hide WrapIf, When;
    assert Layers(Documented(o)) == When(o.fallback, Fallback) + (When(o.circuitBreaker, CircuitBreaker)
      + (When(o.retry, Retry) + (When(o.rateLimiter, RateLimiter)
      + (When(o.timeout, Timeout) + (When(o.bulkhead, Bulkhead) + [])))));
  }

  function FailedParts(k: nat): seq<seq<Mark>> {
    if k == 0 then [] else [[Token, Called]] + FailedParts(k - 1)
  }

  lemma {:induction false} FailedPartsTokens(k: nat)
    ensures |FailedParts(k)| == k && (forall i :: 0 <= i < k ==> FailedParts(k)[i] == [Token, Called])
    ensures Count(Concat(FailedParts(k)), Token) == k
  {
    if k > 0 {
      var one := [Token, Called];
      FailedPartsTokens(k - 1);
      assert FailedParts(k)[0] == one && FailedParts(k)[1..] == FailedParts(k - 1);
      CountConcat(one, Concat(FailedParts(k - 1)), Token);
      assert one == [Token] + [Called];
      CountConcat([Token], [Called], Token);
      CountOne(Token, Token);
      CountOne(Called, Token);
    }
  }

  /** In the documented order an execution can take a token for every attempt; in the built one,
      by OneTokenPerExecution, it takes one at most. */
  lemma DocumentedOrderDebitsRetries(u: Setup, o: Options) returns (t: seq<Mark>, ok: bool)
    requires o.retry && o.rateLimiter && u.attempts >= 1
    ensures Emits(u, Documented(o), t, ok) && Count(t, Token) == u.attempts
  {
    var b := WrapIf(o.bulkhead, Bulkhead, Fn);
    assert Emits(u, b, [Called], false);
    assert Emits(u, Innermost(o), [Called], false);
    var one := [Token, Called];
    assert one[..0] == Waits(0) && one[0 + 1..] == [Called];
    assert LimitedBy(u, Innermost(o), one, false, 0);
    var l := Wrap(RateLimiter, Innermost(o));
    assert Emits(u, l, one, false);
    var parts := FailedParts(u.attempts);
    FailedPartsTokens(u.attempts);
    t, ok := Concat(parts), false;
    assert Retried(u, l, t, ok, parts);
    assert Emits(u, DocumentedAttempts(o), t, ok);
    if o.circuitBreaker {
      var mid := t;
      t := [Admitted] + mid + [Settled(false)];
      CountConcat([Admitted] + mid, [Settled(false)], Token);
      CountConcat([Admitted], mid, Token);
      CountOne(Admitted, Token);
      CountOne(Settled(false), Token);
      assert Emits(u, Wrap(CircuitBreaker, DocumentedAttempts(o)), t, ok);
    }
    if o.fallback {
      ok := true;
    }
  }

  // ------------------------------------------------------------------ calls and admissions

  /** At every moment at most one call per admission so far. */
  ghost predicate Balanced(t: seq<Mark>) {
    forall p :: p <= t ==> Count(p, Called) <= Count(p, Admitted)
  }

  lemma BalancedConcat(a: seq<Mark>, b: seq<Mark>)
    requires Balanced(a) && Balanced(b)
    ensures Balanced(a + b)
  {
    forall p | p <= a + b
      ensures Count(p, Called) <= Count(p, Admitted)
    {
      if |p| <= |a| {
        assert p == (a + b)[..|p|] == a[..|p|];
      } else {
        var q := p[|a|..];
        assert p == (a + b)[..|p|] && q == b[..|q|] && p == a + q;
        CountConcat(a, q, Called);
        CountConcat(a, q, Admitted);
      }
    }
  }

  /** A trace without calls, or one that starts with its admission and calls once, is balanced. */
  lemma BalancedSimply(t: seq<Mark>)
    requires Count(t, Called) == 0 || (Count(t, Called) <= 1 && t != [] && t[0] == Admitted)
    ensures Balanced(t)
  {
    forall p | p <= t
      ensures Count(p, Called) <= Count(p, Admitted)
    {
      CountPrefix(p, t, Called);
      if p != [] {
        assert p[0] == t[0];
      }
    }
  }

  lemma {:induction false} BalancedParts(parts: seq<seq<Mark>>)
    requires forall i :: 0 <= i < |parts| ==> Balanced(parts[i])
    ensures Balanced(Concat(parts))
  {
    if parts == [] {
      BalancedSimply([]);
    } else {
      BalancedParts(parts[1..]);
      BalancedConcat(parts[0], Concat(parts[1..]));
    }
  }

  /** Some breaker layer has at most one call inside it and nothing calls around it. */
  predicate Sheltered(u: Setup, c: Chain) {
    match c
    case Fn => false
    case Wrap(layer, inner) => if layer == CircuitBreaker then Most(u, inner, Called) <= 1 else Sheltered(u, inner)
  }

  lemma {:induction false} ShelteredBalanced(u: Setup, c: Chain, t: seq<Mark>, ok: bool)
    requires Emits(u, c, t, ok) && Sheltered(u, c)
    ensures Balanced(t)
    decreases c
  {
    match c.layer
    case Fallback =>
      var r :| Emits(u, c.inner, t, r) && (if r || u.catchAll then ok else true);
      ShelteredBalanced(u, c.inner, t, r);
    case CircuitBreaker =>
      TraceBounded(u, c, t, ok, Called);
      if t == [Turned] && !ok {
        CountOne(Turned, Called);
      }
      BalancedSimply(t);
    case Retry =>
      var parts: seq<seq<Mark>> :| Retried(u, c.inner, t, ok, parts);
      forall i | 0 <= i < |parts|
        ensures Balanced(parts[i])
      {
        ShelteredBalanced(u, c.inner, parts[i], if i < |parts| - 1 then false else ok);
      }
      BalancedParts(parts);
    case RateLimiter =>
      var k :| LimitedBy(u, c.inner, t, ok, k);
      WaitsCount(k, Called);
      BalancedSimply(Waits(k));
      if !(t == Waits(k) && !ok) {
        ShelteredBalanced(u, c.inner, t[k + 1..], ok);
        CountOne(Token, Called);
        BalancedSimply([Token]);
        BalancedConcat([Token], t[k + 1..]);
        BalancedConcat(Waits(k), [Token] + t[k + 1..]);
        assert t == Waits(k) + ([Token] + t[k + 1..]);
      }
    case Timeout =>
      var r :| Emits(u, c.inner, t, r) && Timed(u, r, ok);
      ShelteredBalanced(u, c.inner, t, r);
    case Bulkhead =>
      if t == [] && !ok {
        BalancedSimply([]);
      } else {
        ShelteredBalanced(u, c.inner, t, ok);
      }
  }

  lemma BuiltSheltered(u: Setup, o: Options)
    requires o.circuitBreaker
    ensures Sheltered(u, Built(o))
  {
    var f := WrapIf(o.fallback, Fallback, Fn);
    assert Most(u, f, Called) <= 1;
    assert Sheltered(u, Guarded(o)) && Sheltered(u, Attempts(o));
    var l := WrapIf(o.rateLimiter, RateLimiter, Attempts(o));
    assert Sheltered(u, l) && Sheltered(u, WrapIf(o.timeout, Timeout, l));
  }

  /** With a breaker configured no attempt calls the function without its own admission: refused
      attempts run nothing. */
  lemma CallsNeedAdmission(u: Setup, o: Options, p: seq<Mark>)
    requires o.circuitBreaker && Possible(u, Built(o), p)
    ensures Count(p, Called) <= Count(p, Admitted)
  {
    var t, ok :| Emits(u, Built(o), t, ok) && p <= t;
    BuiltSheltered(u, o);
    ShelteredBalanced(u, Built(o), t, ok);
  }

  // ------------------------------------------------------------------ the fallback's place

  /** A fallback that never fails hides every failure of the function from the breaker. */
  lemma BreakerSeesNoFailure(u: Setup, o: Options, t: seq<Mark>, ok: bool)
    requires o.fallback && u.catchAll && Emits(u, Built(o), t, ok)
    ensures Count(t, Settled(false)) == 0
  {
    var m := Settled(false);
    var f := Wrap(Fallback, Fn);
    assert NeverFails(u, f) && Most(u, f, m) == 0;
    assert Most(u, Guarded(o), m) == 0 && Most(u, Attempts(o), m) == 0;
    var l := WrapIf(o.rateLimiter, RateLimiter, Attempts(o));
    assert Most(u, l, m) == 0 && Most(u, WrapIf(o.timeout, Timeout, l), m) == 0;
    TraceBounded(u, Built(o), t, ok, m);
  }

  lemma {:induction false} CanSucceed(u: Setup, c: Chain) returns (t: seq<Mark>)
    requires u.attempts >= 1
    ensures Emits(u, c, t, true)
    decreases c
  {
    match c
    case Fn => t := [Called];
    case Wrap(layer, inner) =>
      t := CanSucceed(u, inner);
      match layer {
        case CircuitBreaker =>
          var mid := t;
          t := [Admitted] + mid + [Settled(true)];
        case Retry =>
          assert Concat([t]) == t + Concat([t][1..]) == t;
          assert Retried(u, inner, t, true, [t]);
        case RateLimiter =>
          var rest := t;
          t := [Token] + rest;
          assert t[..0] == Waits(0) && t[0 + 1..] == rest;
          assert LimitedBy(u, inner, t, true, 0);
        case _ =>
      }
  }

  /** Layers besides the breaker that can turn a call away or its result into an error. */
  predicate CanRefuse(u: Setup, o: Options) {
    o.rateLimiter || (o.timeout && u.timeLimit > 0) || o.bulkhead
  }

  /** No execution of the chain returns an error. */
  ghost predicate AlwaysSaved(u: Setup, c: Chain) {
    forall t, ok :: Emits(u, c, t, ok) ==> ok
  }

  lemma SavedIsOk(u: Setup, c: Chain, t: seq<Mark>, ok: bool)
    requires Emits(u, c, t, ok)
    ensures AlwaysSaved(u, c) ==> ok
  {
  }

  lemma RefusalEscapes(u: Setup, o: Options) returns (t: seq<Mark>)
    requires u.attempts >= 1 && CanRefuse(u, o)
    ensures Emits(u, Built(o), t, false)
  {
    var l := WrapIf(o.rateLimiter, RateLimiter, Attempts(o));
    if o.bulkhead {
      t := [];
    } else if o.timeout && u.timeLimit > 0 {
      t := CanSucceed(u, l);
      assert Timed(u, true, false);
    } else {
      t := [Waited];
      assert Waits(1) == [Waited] + Waits(0) == t;
      assert LimitedBy(u, Attempts(o), t, false, 1);
      assert Emits(u, l, t, false);
      assert Timed(u, false, false);
    }
  }

  /** Without a breaker a fallback that never fails saves every execution exactly when no layer
      outside it can refuse: the guide's outermost fallback would always save them. */
  lemma FallbackCatchesAll(u: Setup, o: Options)
    requires u.attempts >= 1 && o.fallback && u.catchAll && !o.circuitBreaker
    ensures AlwaysSaved(u, Built(o)) <==> !CanRefuse(u, o)
  {
    if CanRefuse(u, o) {
      var t := RefusalEscapes(u, o);
      SavedIsOk(u, Built(o), t, false);
    } else {
      forall t, ok | Emits(u, Built(o), t, ok)
        ensures ok
      {
        assert NeverFails(u, Attempts(o));
        NeverFailsIsOk(u, Built(o), t, ok);
      }
    }
  }

  /** A chain in which only a breaker around something that never fails can refuse. */
  predicate OnlyBreakerRefuses(u: Setup, c: Chain) {
    match c
    case Fn => false
    case Wrap(layer, inner) =>
      match layer
      case CircuitBreaker => NeverFails(u, inner)
      case Retry => OnlyBreakerRefuses(u, inner)
      case Timeout => u.timeLimit <= 0 && OnlyBreakerRefuses(u, inner)
      case _ => false
  }

  lemma {:induction false} FailsWhenTurnedAway(u: Setup, c: Chain, t: seq<Mark>)
    requires Emits(u, c, t, false) && OnlyBreakerRefuses(u, c)
    ensures Turned in t
    decreases c
  {
    match c.layer
    case CircuitBreaker =>
      if t != [Turned] {
        var mid :| t == [Admitted] + mid + [Settled(false)] && Emits(u, c.inner, mid, false);
        NeverFailsIsOk(u, c.inner, mid, false);
      }
    case Retry =>
      var parts: seq<seq<Mark>> :| Retried(u, c.inner, t, false, parts);
      FailsWhenTurnedAway(u, c.inner, parts[|parts| - 1]);
      InConcat(parts, |parts| - 1, Turned);
    case Timeout =>
      FailsWhenTurnedAway(u, c.inner, t);
  }

  lemma {:induction false} InConcat(parts: seq<seq<Mark>>, i: nat, m: Mark)
    requires i < |parts| && m in parts[i]
    ensures m in Concat(parts)
  {
    if i > 0 {
      InConcat(parts[1..], i - 1, m);
    }
  }

  /** With a breaker and no other layer that can refuse, an execution returns an error only if the
      breaker turned it away. */
  lemma ErrorMeansTurnedAway(u: Setup, o: Options, t: seq<Mark>)
    requires o.fallback && u.catchAll && !CanRefuse(u, o) && Emits(u, Built(o), t, false)
    ensures o.circuitBreaker && Turned in t
  {
    var f := Wrap(Fallback, Fn);
    assert NeverFails(u, f);
    if o.circuitBreaker {
      assert OnlyBreakerRefuses(u, Guarded(o)) && OnlyBreakerRefuses(u, Attempts(o));
      FailsWhenTurnedAway(u, Built(o), t);
    } else {
      assert NeverFails(u, Attempts(o));
      NeverFailsIsOk(u, Built(o), t, false);
    }
  }

  // ------------------------------------------------------------------ an execution's simplest traces

  /** What an execution of an executor with a breaker does up to the breaker's decision. */
  function Outset(o: Options): seq<Mark> {
    if o.rateLimiter then [Token] else []
  }

  function Passed(o: Options): seq<Mark> {
    Outset(o) + [Admitted, Called, Settled(true)]
  }

  function Refused(o: Options): seq<Mark> {
    Outset(o) + [Turned]
  }

  /** Whatever the attempts below the limiter can do, a whole execution can after taking its token. */
  lemma WholeExecution(u: Setup, o: Options, t: seq<Mark>, ok: bool)
    requires Emits(u, Attempts(o), t, ok)
    ensures Emits(u, Built(o), Outset(o) + t, ok)
  {
    hide Attempts;
    var l := WrapIf(o.rateLimiter, RateLimiter, Attempts(o));
    var whole := Outset(o) + t;
    if o.rateLimiter {
      assert whole[..0] == Waits(0) && whole[0 + 1..] == t;
      assert LimitedBy(u, Attempts(o), whole, ok, 0);
    } else {
      assert whole == t;
    }
    assert Emits(u, l, whole, ok);
    PassesThrough(u, o, l, whole, ok);
  }

  /** The two outermost layers may let an execution pass as it is. */
  lemma PassesThrough(u: Setup, o: Options, c: Chain, t: seq<Mark>, ok: bool)
    requires Emits(u, c, t, ok)
    ensures Emits(u, WrapIf(o.bulkhead, Bulkhead, WrapIf(o.timeout, Timeout, c)), t, ok)
  {
    assert Timed(u, ok, ok);
  }

  /** One attempt is a whole retry loop if it succeeds, and may be one if it fails. */
  lemma OneAttempt(u: Setup, o: Options, t: seq<Mark>, ok: bool)
    requires u.attempts >= 1 && Emits(u, Guarded(o), t, ok)
    ensures Emits(u, Attempts(o), t, ok)
  {
    if o.retry {
      assert Concat([t]) == t + Concat([t][1..]) == t;
      assert Retried(u, Guarded(o), t, ok, [t]);
    }
  }

  lemma SimplestTraces(u: Setup, o: Options)
    requires u.attempts >= 1 && o.circuitBreaker
    ensures Emits(u, Built(o), Passed(o), true)
    ensures Emits(u, Built(o), Refused(o), false)
  {
    var f := WrapIf(o.fallback, Fallback, Fn);
    var t := [Admitted, Called, Settled(true)];
    assert t == [Admitted] + [Called] + [Settled(true)];
    assert Emits(u, Fn, [Called], true);
    assert Emits(u, f, [Called], true);
    assert Emits(u, Guarded(o), t, true);
    assert Emits(u, Guarded(o), [Turned], false);
    hide Emits, Guarded, Attempts, Built;
    OneAttempt(u, o, t, true);
    OneAttempt(u, o, [Turned], false);
    WholeExecution(u, o, t, true);
    WholeExecution(u, o, [Turned], false);
  }
}
