/** The executor's runs with a sliding window as limiter, in place of the token bucket.

    The steps are those of ExecutorRuns; here the limiter's answer to them is the window's, seen
    through its full admission log. */
module WindowedRuns {
  import opened Executors
  import opened ExecutorRuns
  import opened Naturals
  import SW = SlidingWindows

  datatype Rule = Rule(limit: nat, window: nat)

  /** The stamps of all admissions, and the latest clock reading. */
  datatype Gate = Gate(log: seq<int>, clock: int)

  /** An execution passes if the window had room when it trimmed, some time before the stamp; it
      waits if there was none. */
  ghost predicate Answers(r: Rule, gate: Gate, s: Step) {
    match s
    case Do(_, Take(now)) => exists trim :: gate.clock <= trim <= now && SW.HasRoom(gate.log, r.limit, r.window, trim)
    case Do(_, Wait(now)) => gate.clock <= now && !SW.HasRoom(gate.log, r.limit, r.window, now)
    case Outside(now, _) => gate.clock <= now
    case _ => true
  }

  ghost function After(r: Rule, gate: Gate, s: Step): Gate {
    match s
    case Do(_, Take(now)) => Gate(gate.log + [now], now)
    case Do(_, Wait(now)) => Gate(gate.log, now)
    case Outside(now, _) =>
      Gate(if SW.HasRoom(gate.log, r.limit, r.window, now) then gate.log + [now] else gate.log, now)
    case _ => gate
  }

  ghost predicate AnswersAll(r: Rule, gate: Gate, g: seq<Step>)
    decreases |g|
  {
    g != [] ==> Answers(r, gate, g[0]) && AnswersAll(r, After(r, gate, g[0]), g[1..])
  }

  ghost function GateAfter(r: Rule, gate: Gate, g: seq<Step>): Gate
    decreases |g|
  {
    if g == [] then gate else GateAfter(r, After(r, gate, g[0]), g[1..])
  }

  ghost predicate Keeps(r: Rule, gate: Gate) {
    SW.Sorted(gate.log) && SW.UpTo(gate.log, gate.clock) && SW.Spaced(gate.log, r.limit, r.window)
  }

  /** Whether a step is an execution's admission in [s, t]. */
  predicate TakesIn(x: Step, s: int, t: int) {
    x.Do? && x.act.Take? && s <= x.act.now <= t
  }

  function Takes(g: seq<Step>, s: int, t: int): nat {
    if g == [] then 0 else (if TakesIn(g[0], s, t) then 1 else 0) + Takes(g[1..], s, t)
  }

  lemma GateStep(r: Rule, gate: Gate, x: Step, s: int, t: int)
    requires Keeps(r, gate) && Answers(r, gate, x)
    ensures Keeps(r, After(r, gate, x))
    ensures SW.CountIn(gate.log, s, t) + (if TakesIn(x, s, t) then 1 else 0) <= SW.CountIn(After(r, gate, x).log, s, t)
  {
    hide SW.CountIn, SW.HasRoom, SW.Spaced;
    match x
    case Do(_, Take(now)) =>
      var trim :| gate.clock <= trim <= now && SW.HasRoom(gate.log, r.limit, r.window, trim);
      SW.AdmissionKeepsSpacing(gate.log, r.limit, r.window, trim, now);
      SW.CountInAppend(gate.log, now, s, t);
    case Outside(now, _) =>
      SW.CountInAppend(gate.log, now, s, t);
      if SW.HasRoom(gate.log, r.limit, r.window, now) {
        SW.AdmissionKeepsSpacing(gate.log, r.limit, r.window, now, now);
      }
    case _ =>
  }

  /** Every admission of an execution is in the limiter's log, which keeps the window law. */
  lemma {:induction false} TakesWithinLog(r: Rule, gate: Gate, g: seq<Step>, s: int, t: int)
    requires Keeps(r, gate) && AnswersAll(r, gate, g)
    ensures Keeps(r, GateAfter(r, gate, g))
    ensures SW.CountIn(gate.log, s, t) + Takes(g, s, t) <= SW.CountIn(GateAfter(r, gate, g).log, s, t)
    decreases |g|
  {
    hide After, Answers, Keeps, TakesIn;
    if g != [] {
      GateStep(r, gate, g[0], s, t);
      TakesWithinLog(r, After(r, gate, g[0]), g[1..], s, t);
    }
  }

  // ------------------------------------------------------------------ by execution

  /** Admissions of execution `id` in [s, t]. */
  function TakesOf(g: seq<Step>, id: nat, s: int, t: int): nat {
    if g == [] then 0 else (if TakesIn(g[0], s, t) && g[0].id == id then 1 else 0) + TakesOf(g[1..], id, s, t)
  }

  /** Of all executions below `n`. */
  function TakesBelow(g: seq<Step>, n: nat, s: int, t: int): nat {
    if g == [] then 0 else (if TakesIn(g[0], s, t) && g[0].id < n then 1 else 0) + TakesBelow(g[1..], n, s, t)
  }

  lemma {:induction false} TakesOneMore(g: seq<Step>, n: nat, s: int, t: int)
    ensures TakesBelow(g, n + 1, s, t) == TakesBelow(g, n, s, t) + TakesOf(g, n, s, t)
    ensures TakesBelow(g, n, s, t) <= Takes(g, s, t)
    ensures TakesBelow(g, 0, s, t) == 0
  {
    if g != [] {
      TakesOneMore(g[1..], n, s, t);
    }
  }

  /** Calls, at whatever time, of the executions below `n` that were admitted in [s, t]. */
  function CallsFrom(g: seq<Step>, n: nat, s: int, t: int): nat {
    if n == 0 then 0
    else CallsFrom(g, n - 1, s, t) + (if TakesOf(g, n - 1, s, t) > 0 then Count(Trace(g, n - 1), Called) else 0)
  }

  lemma CallsOfOne(x: Shop, g: seq<Step>, id: nat)
    requires Faithful(x, g) && x.options.rateLimiter
    ensures Count(Trace(g, id), Called) <= MostCalls(x.setup, x.options)
  {
    hide Emits, Trace, MostCalls;
    var p := Trace(g, id);
    assert Possible(x.setup, Built(x.options), p);
    var t, ok :| Emits(x.setup, Built(x.options), t, ok) && p <= t;
    OneTokenPerExecution(x.setup, x.options, t, ok);
    CountPrefix(p, t, Called);
  }

  lemma {:induction false} CallsPerTake(x: Shop, g: seq<Step>, n: nat, s: int, t: int)
    requires Faithful(x, g) && x.options.rateLimiter
    ensures CallsFrom(g, n, s, t) <= Product(MostCalls(x.setup, x.options), TakesBelow(g, n, s, t))
  {
    var k := MostCalls(x.setup, x.options);
    hide MostCalls, TakesBelow, TakesOf, Trace, Count, Faithful;
    if n == 0 {
      assert Product(k, TakesBelow(g, 0, s, t)) >= 0;
    } else {
      CallsPerTake(x, g, n - 1, s, t);
      TakesOneMore(g, n - 1, s, t);
      CallsOfOne(x, g, n - 1);
      var many := TakesOf(g, n - 1, s, t);
      ProductAdds(k, TakesBelow(g, n - 1, s, t), many);
      if many > 0 {
        ProductMonotone(k, k, 1, many);
        assert Product(k, 1) == k;
      }
    }
  }

  /** Throughput: over all executions admitted within any closed interval of the window's length the
      function is called at most `limit` times the permitted attempts, whatever other users of the
      limiter do. */
  lemma WindowedThroughput(x: Shop, r: Rule, from: int, g: seq<Step>, n: nat, s: int, t: int)
    requires x.options.rateLimiter && Faithful(x, g)
    requires AnswersAll(r, Gate([], from), g) && s <= t <= s + r.window
    ensures CallsFrom(g, n, s, t) <= Product(MostCalls(x.setup, x.options), r.limit)
  {
    var k, start := MostCalls(x.setup, x.options), Gate([], from);
    TakesWithinLog(r, start, g, s, t);
    var log := GateAfter(r, start, g).log;
    SW.SpacingIsLaw(log, r.limit, r.window);
    assert SW.CountIn(log, s, t) <= r.limit;
    hide MostCalls, TakesBelow, Faithful, AnswersAll, SW.WindowLaw, GateAfter;
    CallsPerTake(x, g, n, s, t);
    TakesOneMore(g, n, s, t);
    ProductMonotone(k, k, TakesBelow(g, n, s, t), r.limit);
  }
}
