/** The bulkhead of internal/bulkhead/bulkhead.go as a system of threads.

    A buffered channel is the semaphore; a separately locked counter reports activity.  Each thread
    inside Execute has a program counter, one atomic step apart: the channel operations and the
    locked counter updates interleave freely, for any number of threads. */
module Bulkheads {

  type Thread = nat

  /** Where a thread inside Execute stands: about to acquire; refused but not yet counted so; with a
      slot but not yet counted active; counted active; in the function; slot given back but still
      counted active. */
  datatype PC = Waiting | Refused | Acquired | Counted | Running | Released

  /** Threads outside Execute are not in `pcs`. */
  datatype State = State(channel: nat, activeCount: int, totalCalls: nat, totalRejected: nat,
                         totalCompleted: nat, pcs: map<Thread, PC>)

  /** `blocking`: a positive MaxWaitDuration. */
  datatype Config = Config(maxConcurrent: nat, blocking: bool)

  datatype Event =
    | Arrive(t: Thread)
    | Send(t: Thread)
    | Refuse(t: Thread)
    | CountRefusal(t: Thread)
    | CountIn(t: Thread)
    | CountCall(t: Thread)
    | Receive(t: Thread)
    | CountOut(t: Thread)

  predicate IsAt(s: State, t: Thread, pc: PC) {
    t in s.pcs && s.pcs[t] == pc
  }

  /** A send needs room and a receive needs a token.  The non-blocking select refuses only a full
      channel; the blocking one may time out or be cancelled at any moment. */
  predicate Enabled(c: Config, s: State, e: Event) {
    match e
    case Arrive(t) => t !in s.pcs
    case Send(t) => IsAt(s, t, Waiting) && s.channel < c.maxConcurrent
    case Refuse(t) => IsAt(s, t, Waiting) && (c.blocking || s.channel >= c.maxConcurrent)
    case CountRefusal(t) => IsAt(s, t, Refused)
    case CountIn(t) => IsAt(s, t, Acquired)
    case CountCall(t) => IsAt(s, t, Counted)
    case Receive(t) => IsAt(s, t, Running) && s.channel > 0
    case CountOut(t) => IsAt(s, t, Released)
  }

  function Next(s: State, e: Event): State {
    match e
    case Arrive(t) => s.(pcs := s.pcs[t := Waiting])
    case Send(t) => s.(channel := s.channel + 1, pcs := s.pcs[t := Acquired])
    case Refuse(t) => s.(pcs := s.pcs[t := Refused])
    case CountRefusal(t) => s.(totalRejected := s.totalRejected + 1, pcs := s.pcs - {t})
    case CountIn(t) => s.(activeCount := s.activeCount + 1, pcs := s.pcs[t := Counted])
    case CountCall(t) => s.(totalCalls := s.totalCalls + 1, pcs := s.pcs[t := Running])
    case Receive(t) => s.(channel := if s.channel > 0 then s.channel - 1 else 0, pcs := s.pcs[t := Released])
    case CountOut(t) => s.(activeCount := s.activeCount - 1, totalCompleted := s.totalCompleted + 1, pcs := s.pcs - {t})
  }

  const EMPTY := State(0, 0, 0, 0, 0, map[])

  ghost predicate Legal(c: Config, s: State, es: seq<Event>)
    decreases |es|
  {
    es != [] ==> Enabled(c, s, es[0]) && Legal(c, Next(s, es[0]), es[1..])
  }

  function Run(s: State, es: seq<Event>): State
    decreases |es|
  {
    if es == [] then s else Run(Next(s, es[0]), es[1..])
  }

  function Arrivals(es: seq<Event>): nat {
    if es == [] then 0 else (if es[0].Arrive? then 1 else 0) + Arrivals(es[1..])
  }

  // ------------------------------------------------------------------ counting threads

  function At(pcs: map<Thread, PC>, pc: PC): set<Thread> {
    set t | t in pcs && pcs[t] == pc
  }

  function Count(s: State, pc: PC): nat {
    |At(s.pcs, pc)|
  }

  lemma MoveCounts(pcs: map<Thread, PC>, t: Thread, to: PC, pc: PC)
    requires t in pcs && pcs[t] != to
    ensures |At(pcs[t := to], pc)| == |At(pcs, pc)| + (if pc == to then 1 else 0) - (if pc == pcs[t] then 1 else 0)
  {
    if pc == to {
      assert At(pcs[t := to], pc) == At(pcs, pc) + {t};
    } else {
      assert At(pcs[t := to], pc) == At(pcs, pc) - {t};
    }
  }

  lemma EnterCounts(pcs: map<Thread, PC>, t: Thread, to: PC, pc: PC)
    requires t !in pcs
    ensures |At(pcs[t := to], pc)| == |At(pcs, pc)| + (if pc == to then 1 else 0)
  {
    if pc == to {
      assert At(pcs[t := to], pc) == At(pcs, pc) + {t};
    } else {
      assert At(pcs[t := to], pc) == At(pcs, pc);
    }
  }

  lemma LeaveCounts(pcs: map<Thread, PC>, t: Thread, pc: PC)
    requires t in pcs
    ensures |At(pcs - {t}, pc)| == |At(pcs, pc)| - (if pc == pcs[t] then 1 else 0)
  {
    assert At(pcs - {t}, pc) == At(pcs, pc) - {t};
  }

  lemma Sizes(pcs: map<Thread, PC>, t: Thread, to: PC)
    ensures |pcs[t := to]| == |pcs| + (if t in pcs then 0 else 1)
    ensures |pcs - {t}| == |pcs| - (if t in pcs then 1 else 0)
  {
    assert pcs[t := to].Keys == pcs.Keys + {t};
    assert (pcs - {t}).Keys == pcs.Keys - {t};
  }

  // ------------------------------------------------------------------ the invariant

  /** Channel length is the number of slot holders and never exceeds the capacity; activeCount is
      the number of threads counted but not yet uncounted; the call totals account for every thread
      that got as far. */
  ghost predicate Inv(c: Config, s: State) {
    && s.channel == Count(s, Acquired) + Count(s, Counted) + Count(s, Running)
    && s.channel <= c.maxConcurrent
    && s.activeCount == Count(s, Counted) + Count(s, Running) + Count(s, Released)
    && s.totalCalls == Count(s, Running) + Count(s, Released) + s.totalCompleted
  }

  lemma StartInv(c: Config)
    ensures Inv(c, EMPTY)
  {
    forall pc
      ensures At(EMPTY.pcs, pc) == {}
    {
    }
  }

  /** Effect of one step on the number of threads at a program counter. */
  lemma StepCount(c: Config, s: State, e: Event, pc: PC)
    requires Enabled(c, s, e)
    ensures Count(Next(s, e), pc) == Count(s, pc) + Entered(e, pc) - Left(e, pc)
  {
    hide At;
    match e
    case Arrive(t) => EnterCounts(s.pcs, t, Waiting, pc);
    case Send(t) => MoveCounts(s.pcs, t, Acquired, pc);
    case Refuse(t) => MoveCounts(s.pcs, t, Refused, pc);
    case CountRefusal(t) => LeaveCounts(s.pcs, t, pc);
    case CountIn(t) => MoveCounts(s.pcs, t, Counted, pc);
    case CountCall(t) => MoveCounts(s.pcs, t, Running, pc);
    case Receive(t) => MoveCounts(s.pcs, t, Released, pc);
    case CountOut(t) => LeaveCounts(s.pcs, t, pc);
  }

  lemma StepSize(c: Config, s: State, e: Event)
    requires Enabled(c, s, e)
    ensures |Next(s, e).pcs| == |s.pcs| + (if e.Arrive? then 1 else 0)
                                - (if e.CountRefusal? || e.CountOut? then 1 else 0)
  {
    match e
    case Arrive(t) => Sizes(s.pcs, t, Waiting);
    case Send(t) => Sizes(s.pcs, t, Acquired);
    case Refuse(t) => Sizes(s.pcs, t, Refused);
    case CountRefusal(t) => Sizes(s.pcs, t, Refused);
    case CountIn(t) => Sizes(s.pcs, t, Counted);
    case CountCall(t) => Sizes(s.pcs, t, Running);
    case Receive(t) => Sizes(s.pcs, t, Released);
    case CountOut(t) => Sizes(s.pcs, t, Released);
  }

  function Entered(e: Event, pc: PC): nat {
    match e
    case Arrive(_) => if pc == Waiting then 1 else 0
    case Send(_) => if pc == Acquired then 1 else 0
    case Refuse(_) => if pc == Refused then 1 else 0
    case CountIn(_) => if pc == Counted then 1 else 0
    case CountCall(_) => if pc == Running then 1 else 0
    case Receive(_) => if pc == Released then 1 else 0
    case _ => 0
  }

  function Left(e: Event, pc: PC): nat {
    match e
    case Arrive(_) => 0
    case Send(_) => if pc == Waiting then 1 else 0
    case Refuse(_) => if pc == Waiting then 1 else 0
    case CountRefusal(_) => if pc == Refused then 1 else 0
    case CountIn(_) => if pc == Acquired then 1 else 0
    case CountCall(_) => if pc == Counted then 1 else 0
    case Receive(_) => if pc == Running then 1 else 0
    case CountOut(_) => if pc == Released then 1 else 0
  }

  lemma StepInv(c: Config, s: State, e: Event)
    requires Inv(c, s) && Enabled(c, s, e)
    ensures Inv(c, Next(s, e))
  {
    hide Count;
    StepCount(c, s, e, Acquired);
    StepCount(c, s, e, Counted);
    StepCount(c, s, e, Running);
    StepCount(c, s, e, Released);
  }

  /** The invariant and the thread ledger hold after every interleaving. */
  lemma {:induction false} RunInv(c: Config, s: State, es: seq<Event>)
    requires Inv(c, s) && Legal(c, s, es)
    ensures Inv(c, Run(s, es))
    ensures var end := Run(s, es);
      |s.pcs| + s.totalRejected + s.totalCompleted + Arrivals(es)
        == |end.pcs| + end.totalRejected + end.totalCompleted
    decreases |es|
  {
    if es != [] {
      StepInv(c, s, es[0]);
      StepSize(c, s, es[0]);
      RunInv(c, Next(s, es[0]), es[1..]);
    }
  }

  // ------------------------------------------------------------------ what it means

  /** At most maxConcurrent threads are in the function. */
  lemma RunningBounded(c: Config, es: seq<Event>)
    requires Legal(c, EMPTY, es)
    ensures Count(Run(EMPTY, es), Running) <= c.maxConcurrent
  {
    StartInv(c);
    RunInv(c, EMPTY, es);
  }

  lemma PresentCounts(s: State, t: Thread, pc: PC)
    requires IsAt(s, t, pc)
    ensures Count(s, pc) >= 1
  {
    assert t in At(s.pcs, pc);
  }

  /** Giving the slot back never blocks, and no thread inside Execute is ever without a step. */
  lemma NobodyBlocks(c: Config, es: seq<Event>, t: Thread)
    requires Legal(c, EMPTY, es) && t in Run(EMPTY, es).pcs
    ensures var s := Run(EMPTY, es);
      && (IsAt(s, t, Running) ==> Enabled(c, s, Receive(t)))
      && (|| Enabled(c, s, Send(t)) || Enabled(c, s, Refuse(t)) || Enabled(c, s, CountRefusal(t))
          || Enabled(c, s, CountIn(t)) || Enabled(c, s, CountCall(t))
          || Enabled(c, s, Receive(t)) || Enabled(c, s, CountOut(t)))
  {
    StartInv(c);
    RunInv(c, EMPTY, es);
    var s := Run(EMPTY, es);
    if IsAt(s, t, Running) {
      PresentCounts(s, t, Running);
    }
  }

  /** At quiescence nothing is active, no slot is taken, and every call completed. */
  lemma Quiescent(c: Config, es: seq<Event>)
    requires Legal(c, EMPTY, es) && Run(EMPTY, es).pcs == map[]
    ensures var s := Run(EMPTY, es);
      && s.channel == 0 && s.activeCount == 0 && s.totalCalls == s.totalCompleted
      && Arrivals(es) == s.totalRejected + s.totalCompleted
  {
    StartInv(c);
    RunInv(c, EMPTY, es);
    forall pc
      ensures At(Run(EMPTY, es).pcs, pc) == {}
    {
    }
  }

  function AvailableSlots(c: Config, s: State): int {
    c.maxConcurrent - s.activeCount
  }

  /** The reported number of free slots is the real one exactly when as many threads hold an
      uncounted slot as are counted without one. */
  lemma AvailableSlotsExact(c: Config, s: State)
    requires Inv(c, s)
    ensures AvailableSlots(c, s) == c.maxConcurrent - s.channel + Count(s, Acquired) - Count(s, Released)
    ensures AvailableSlots(c, s) == c.maxConcurrent - s.channel <==> Count(s, Acquired) == Count(s, Released)
    ensures s.activeCount <= c.maxConcurrent + Count(s, Released)
  {
  }

  // ------------------------------------------------------------------ overshoot

  lemma {:induction false} RunsCompose(c: Config, s: State, xs: seq<Event>, ys: seq<Event>)
    requires Legal(c, s, xs) && Legal(c, Run(s, xs), ys)
    ensures Legal(c, s, xs + ys) && Run(s, xs + ys) == Run(Run(s, xs), ys)
    decreases |xs|
  {
    if xs == [] {
      assert xs + ys == ys;
    } else {
      assert (xs + ys)[0] == xs[0] && (xs + ys)[1..] == xs[1..] + ys;
      RunsCompose(c, Next(s, xs[0]), xs[1..], ys);
    }
  }

  /** A newcomer gets a slot and enters the function. */
  function Admission(t: Thread): seq<Event> {
    [Arrive(t), Send(t), CountIn(t), CountCall(t)]
  }

  lemma AdmissionRuns(c: Config, s: State, t: Thread)
    requires t !in s.pcs && s.channel < c.maxConcurrent
    ensures Legal(c, s, Admission(t))
    ensures Run(s, Admission(t)) == State(s.channel + 1, s.activeCount + 1, s.totalCalls + 1, s.totalRejected,
                                          s.totalCompleted, s.pcs[t := Running])
  {
    var es := Admission(t);
    var s1 := Next(s, es[0]);
    var s2 := Next(s1, es[1]);
    var s3 := Next(s2, es[2]);
    var s4 := Next(s3, es[3]);
    assert es[1..][0] == es[1] && es[1..][1..] == es[2..] && es[2..][0] == es[2] && es[2..][1..] == es[3..];
    assert es[3..][0] == es[3] && es[3..][1..] == [];
    assert Legal(c, s4, []) && Run(s4, []) == s4;
    assert Legal(c, s3, es[3..]) && Run(s3, es[3..]) == s4;
    assert Legal(c, s2, es[2..]) && Run(s2, es[2..]) == s4;
    assert s4.pcs == s.pcs[t := Running];
  }

  ghost predicate Below(s: State, n: Thread) {
    forall t :: t in s.pcs ==> t < n
  }

  /** Thread n - 1 runs with the channel full but for what `free` says. */
  lemma {:induction false} FillUp(c: Config, n: nat) returns (es: seq<Event>)
    requires n <= c.maxConcurrent
    ensures Legal(c, EMPTY, es)
    ensures var s := Run(EMPTY, es);
      s.channel == n == s.activeCount && Below(s, n) && (n > 0 ==> IsAt(s, n - 1, Running))
  {
    if n == 0 {
      es := [];
    } else {
      var first := FillUp(c, n - 1);
      AdmissionRuns(c, Run(EMPTY, first), n - 1);
      RunsCompose(c, EMPTY, first, Admission(n - 1));
      es := first + Admission(n - 1);
    }
  }

  /** activeCount has no bound of its own: for every excess there is a run that reaches it. */
  lemma {:induction false} Overshoots(c: Config, excess: nat) returns (es: seq<Event>)
    requires c.maxConcurrent >= 1
    ensures Legal(c, EMPTY, es)
    ensures var s := Run(EMPTY, es);
      && s.channel == c.maxConcurrent && s.activeCount == c.maxConcurrent + excess
      && Below(s, c.maxConcurrent + excess) && IsAt(s, c.maxConcurrent + excess - 1, Running)
  {
    if excess == 0 {
      es := FillUp(c, c.maxConcurrent);
    } else {
      var first := Overshoots(c, excess - 1);
      var last: Thread := c.maxConcurrent + excess - 2;
      var s := Run(EMPTY, first);
      var s' := Next(s, Receive(last));
      assert [Receive(last)][1..] == [];
      assert Legal(c, s', []) && Run(s', []) == s';
      assert Legal(c, s, [Receive(last)]) && Run(s, [Receive(last)]) == s';
      RunsCompose(c, EMPTY, first, [Receive(last)]);
      AdmissionRuns(c, s', last + 1);
      RunsCompose(c, EMPTY, first + [Receive(last)], Admission(last + 1));
      es := first + [Receive(last)] + Admission(last + 1);
    }
  }

  // ------------------------------------------------------------------ the mutable object

  class Bulkhead {
    const config: Config
    var channel: nat
    var activeCount: int
    var totalCalls: nat
    var totalRejected: nat
    var totalCompleted: nat
    /** Program counters of the threads inside Execute. */
    ghost var pcs: map<Thread, PC>

    ghost function View(): State reads this {
      State(channel, activeCount, totalCalls, totalRejected, totalCompleted, pcs)
    }

    ghost predicate Valid() reads this {
      config.maxConcurrent >= 1 && Inv(config, View())
    }

    constructor (maxConcurrent: int, maxWaitDuration: int)
      ensures Valid() && View() == EMPTY
      ensures config == Config(if maxConcurrent <= 0 then 10 else maxConcurrent, maxWaitDuration > 0)
    {
      config := Config(if maxConcurrent <= 0 then 10 else maxConcurrent, maxWaitDuration > 0);
      channel, activeCount, totalCalls, totalRejected, totalCompleted := 0, 0, 0, 0, 0;
      pcs := map[];
      new;
      StartInv(config);
    }

    /** The select of acquire.  `expired`: timer or context is chosen in the blocking form.  The
        non-blocking form sends exactly when the channel has room. */
    method Select(ghost t: Thread, expired: bool) returns (sent: bool)
      requires Valid() && IsAt(View(), t, Waiting)
      requires config.blocking && !expired ==> channel < config.maxConcurrent
      modifies this
      ensures Valid()
      ensures sent <==> if config.blocking then !expired else old(channel) < config.maxConcurrent
      ensures View() == Next(old(View()), if sent then Send(t) else Refuse(t))
    {
      sent := if config.blocking then !expired else channel < config.maxConcurrent;
      StepInv(config, View(), if sent then Send(t) else Refuse(t));
      if sent {
        channel := channel + 1;
        pcs := pcs[t := Acquired];
      } else {
        pcs := pcs[t := Refused];
      }
    }

    method Enter(ghost t: Thread)
      requires Valid() && t !in pcs
      modifies this
      ensures Valid() && View() == Next(old(View()), Arrive(t))
    {
      StepInv(config, View(), Arrive(t));
      pcs := pcs[t := Waiting];
    }

    method CountRefusalOf(ghost t: Thread)
      requires Valid() && IsAt(View(), t, Refused)
      modifies this
      ensures Valid() && View() == Next(old(View()), CountRefusal(t))
    {
      StepInv(config, View(), CountRefusal(t));
      totalRejected := totalRejected + 1;
      pcs := pcs - {t};
    }

    method CountActive(ghost t: Thread)
      requires Valid() && IsAt(View(), t, Acquired)
      modifies this
      ensures Valid() && View() == Next(old(View()), CountIn(t))
    {
      StepInv(config, View(), CountIn(t));
      activeCount := activeCount + 1;
      pcs := pcs[t := Counted];
    }

    method CountCallOf(ghost t: Thread)
      requires Valid() && IsAt(View(), t, Counted)
      modifies this
      ensures Valid() && View() == Next(old(View()), CountCall(t))
    {
      StepInv(config, View(), CountCall(t));
      totalCalls := totalCalls + 1;
      pcs := pcs[t := Running];
    }

    /** The receive of release: the channel cannot be empty. */
    method GiveBack(ghost t: Thread)
      requires Valid() && IsAt(View(), t, Running)
      modifies this
      ensures Valid() && View() == Next(old(View()), Receive(t)) && channel == old(channel) - 1
    {
      PresentCounts(View(), t, Running);
      StepInv(config, View(), Receive(t));
      channel := channel - 1;
      pcs := pcs[t := Released];
    }

    method CountInactive(ghost t: Thread)
      requires Valid() && IsAt(View(), t, Released)
      modifies this
      ensures Valid() && View() == Next(old(View()), CountOut(t))
    {
      StepInv(config, View(), CountOut(t));
      activeCount := activeCount - 1;
      totalCompleted := totalCompleted + 1;
      pcs := pcs - {t};
    }

    /** One uninterrupted Execute: it runs the function exactly when its select sends, leaves slot
        and activity count as it found them, and is counted once, as a call or as a rejection. */
    method Execute(ghost t: Thread, expired: bool) returns (ran: bool)
      requires Valid() && t !in pcs
      requires config.blocking && !expired ==> channel < config.maxConcurrent
      modifies this
      ensures Valid() && channel == old(channel) && activeCount == old(activeCount) && pcs == old(pcs)
      ensures ran <==> if config.blocking then !expired else old(channel) < config.maxConcurrent
      ensures totalCalls == old(totalCalls) + (if ran then 1 else 0)
      ensures totalCompleted == old(totalCompleted) + (if ran then 1 else 0)
      ensures totalRejected == old(totalRejected) + (if ran then 0 else 1)
    {
      hide Inv;
      Enter(t);
      ran := Select(t, expired);
      if !ran {
        CountRefusalOf(t);
        assert pcs == old(pcs);
        return;
      }
      CountActive(t);
      CountCallOf(t);
      GiveBack(t);
      CountInactive(t);
      assert pcs == old(pcs);
    }
  }
}
