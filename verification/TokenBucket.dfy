/** The token bucket of internal/ratelimit/ratelimit.go.

    A bucket stores only a token count and the instant of its last refresh.  It is proved here
    against the history of the grants it made: the stored count is the closed form `Headroom` of
    that history, and a request is granted exactly when granting it breaks the rate law
    "at most burst + rate * length tokens in any interval" for no interval ending now.

    Instants and durations are whole nanoseconds; token counts and rates are exact reals. */
module TokenBuckets {
  import opened Reservations

  const NANOS_PER_SECOND: real := 1000000000.0

  /** Tokens per second, and the most tokens the bucket holds. */
  datatype Limit = Limit(rate: real, burst: nat)

  datatype Grant = Grant(time: int, n: nat)

  function Min(x: real, y: real): real {
    if x <= y then x else y
  }

  /** Tokens that accrue between two instants. */
  function Refill(l: Limit, from: int, to: int): real {
    (to - from) as real / NANOS_PER_SECOND * l.rate
  }

  // ------------------------------------------------------------------ histories and the law

  function Total(gs: seq<Grant>): nat {
    if gs == [] then 0 else gs[0].n + Total(gs[1..])
  }

  /** Tokens granted in the closed interval [s, t]. */
  function GrantedIn(gs: seq<Grant>, s: int, t: int): nat {
    if gs == [] then 0
    else (if s <= gs[0].time <= t then gs[0].n else 0) + GrantedIn(gs[1..], s, t)
  }

  /** Grants are in clock order and none lies after `now`. */
  ghost predicate Chronological(gs: seq<Grant>, now: int) {
    && (forall i, j :: 0 <= i < j < |gs| ==> gs[i].time <= gs[j].time)
    && (forall i :: 0 <= i < |gs| ==> gs[i].time <= now)
  }

  /** The law: every closed interval received at most burst + rate * length tokens. */
  ghost predicate RateLaw(l: Limit, gs: seq<Grant>) {
    forall s, t :: s <= t ==> GrantedIn(gs, s, t) as real <= l.burst as real + Refill(l, s, t)
  }

  /** `n` more tokens at `now` would keep the law for every interval that ends at `now`. */
  ghost predicate Lawful(l: Limit, gs: seq<Grant>, now: int, n: nat) {
    forall s :: s <= now ==> GrantedIn(gs, s, now) as real + n as real <= l.burst as real + Refill(l, s, now)
  }

  /** The largest amount the law still leaves at `now`: the smallest slack over the intervals that
      start at a grant, capped by the burst. */
  function Headroom(l: Limit, gs: seq<Grant>, now: int): real {
    if gs == [] then l.burst as real
    else Min(l.burst as real + Refill(l, gs[0].time, now) - Total(gs) as real, Headroom(l, gs[1..], now))
  }

  lemma RefillSplits(l: Limit, a: int, b: int, c: int)
    ensures Refill(l, a, c) == Refill(l, a, b) + Refill(l, b, c)
  {
    var x, y := (b - a) as real / NANOS_PER_SECOND, (c - b) as real / NANOS_PER_SECOND;
    assert (c - a) as real / NANOS_PER_SECOND == x + y;
    assert (x + y) * l.rate == x * l.rate + y * l.rate;
  }

  /** In one second `rate` tokens accrue, and in k seconds k times as many. */
  lemma {:induction false} RefillPerSecond(l: Limit, t: int, k: nat)
    ensures Refill(l, t, t + k * 1_000_000_000) == k as real * l.rate
  {
    if k == 0 {
      assert Refill(l, t, t) == 0.0;
    } else {
      var mid := t + (k - 1) * 1_000_000_000;
      RefillPerSecond(l, t, k - 1);
      RefillSplits(l, t, mid, mid + 1_000_000_000);
      assert Refill(l, mid, mid + 1_000_000_000) == l.rate;
      assert k as real * l.rate == (k - 1) as real * l.rate + l.rate;
    }
  }

  lemma RefillNonNegative(l: Limit, a: int, b: int)
    requires l.rate >= 0.0 && a <= b
    ensures Refill(l, a, b) >= 0.0
  {
    var x := (b - a) as real / NANOS_PER_SECOND;
    assert x >= 0.0;
    assert x * l.rate >= 0.0;
  }

  lemma RefillMonotone(l: Limit, a: int, a': int, b: int, b': int)
    requires l.rate >= 0.0 && a' <= a && b <= b'
    ensures Refill(l, a, b) <= Refill(l, a', b')
  {
    RefillSplits(l, a', a, b');
    RefillSplits(l, a, b, b');
    RefillNonNegative(l, a', a);
    RefillNonNegative(l, b, b');
  }

  lemma {:induction false} TotalAppend(gs: seq<Grant>, g: Grant)
    ensures Total(gs + [g]) == Total(gs) + g.n
  {
    if gs == [] {
      assert gs + [g] == [g];
    } else {
      assert (gs + [g])[1..] == gs[1..] + [g];
      TotalAppend(gs[1..], g);
    }
  }

  lemma {:induction false} GrantedInAppend(gs: seq<Grant>, g: Grant, s: int, t: int)
    ensures GrantedIn(gs + [g], s, t) == GrantedIn(gs, s, t) + (if s <= g.time <= t then g.n else 0)
  {
    if gs == [] {
      assert gs + [g] == [g];
    } else {
      assert (gs + [g])[1..] == gs[1..] + [g];
      GrantedInAppend(gs[1..], g, s, t);
    }
  }

  /** An interval that covers every grant received all of them. */
  lemma {:induction false} GrantedInAll(gs: seq<Grant>, s: int, t: int)
    requires forall i :: 0 <= i < |gs| ==> s <= gs[i].time <= t
    ensures GrantedIn(gs, s, t) == Total(gs)
  {
    if gs != [] {
      GrantedInAll(gs[1..], s, t);
    }
  }

  /** Past the last grant the end of the interval does not matter. */
  lemma {:induction false} GrantedInClips(gs: seq<Grant>, s: int, t: int, now: int)
    requires Chronological(gs, now) && now <= t
    ensures GrantedIn(gs, s, t) == GrantedIn(gs, s, now)
  {
    if gs != [] {
      GrantedInClips(gs[1..], s, t, now);
    }
  }

  /** The closed form is the law: an amount is lawful exactly when it fits the headroom. */
  lemma {:induction false} HeadroomIsLaw(l: Limit, gs: seq<Grant>, now: int, n: nat)
    requires l.rate >= 0.0 && Chronological(gs, now)
    ensures n as real <= Headroom(l, gs, now) <==> Lawful(l, gs, now, n)
  {
    if n as real <= Headroom(l, gs, now) {
      forall s | s <= now
        ensures GrantedIn(gs, s, now) as real + n as real <= l.burst as real + Refill(l, s, now)
      {
        HeadroomBounds(l, gs, now, n, s);
      }
    }
    if Lawful(l, gs, now, n) {
      LawBoundsHeadroom(l, gs, now, n);
    }
  }

  lemma {:induction false} HeadroomBounds(l: Limit, gs: seq<Grant>, now: int, n: nat, s: int)
    requires l.rate >= 0.0 && Chronological(gs, now) && s <= now
    requires n as real <= Headroom(l, gs, now)
    ensures GrantedIn(gs, s, now) as real + n as real <= l.burst as real + Refill(l, s, now)
  {
    if gs == [] {
      RefillNonNegative(l, s, now);
    } else if s <= gs[0].time {
      GrantedInAll(gs, s, now);
      RefillMonotone(l, gs[0].time, s, now, now);
    } else {
      HeadroomBounds(l, gs[1..], now, n, s);
    }
  }

  lemma {:induction false} LawBoundsHeadroom(l: Limit, gs: seq<Grant>, now: int, n: nat)
    requires l.rate >= 0.0 && Chronological(gs, now) && Lawful(l, gs, now, n)
    ensures n as real <= Headroom(l, gs, now)
  {
    if gs == [] {
      assert GrantedIn(gs, now, now) == 0;
    } else {
      GrantedInAll(gs, gs[0].time, now);
      assert GrantedIn(gs, gs[0].time, now) as real + n as real
             <= l.burst as real + Refill(l, gs[0].time, now);
      assert Lawful(l, gs[1..], now, n) by {
        forall s | s <= now
          ensures GrantedIn(gs[1..], s, now) as real + n as real <= l.burst as real + Refill(l, s, now)
        {
          assert GrantedIn(gs[1..], s, now) <= GrantedIn(gs, s, now);
        }
      }
      LawBoundsHeadroom(l, gs[1..], now, n);
    }
  }

  /** The headroom at a later instant is the refilled and capped headroom of an earlier one. */
  lemma {:induction false} HeadroomRefills(l: Limit, gs: seq<Grant>, now: int, later: int)
    requires l.rate >= 0.0 && Chronological(gs, now) && now <= later
    ensures Headroom(l, gs, later) == Min(l.burst as real, Headroom(l, gs, now) + Refill(l, now, later))
  {
    RefillNonNegative(l, now, later);
    if gs != [] {
      RefillSplits(l, gs[0].time, now, later);
      HeadroomRefills(l, gs[1..], now, later);
    }
  }

  /** A grant costs exactly its size. */
  lemma {:induction false} HeadroomAfterGrant(l: Limit, gs: seq<Grant>, now: int, n: nat)
    ensures Headroom(l, gs + [Grant(now, n)], now) == Headroom(l, gs, now) - n as real
  {
    var g := Grant(now, n);
    TotalAppend(gs, g);
    if gs == [] {
      assert gs + [g] == [g];
      assert Refill(l, now, now) == 0.0;
      assert Headroom(l, [g][1..], now) == l.burst as real;
    } else {
      assert (gs + [g])[1..] == gs[1..] + [g];
      HeadroomAfterGrant(l, gs[1..], now, n);
    }
  }

  /** A lawful grant keeps the law for every interval, not only for those ending now. */
  lemma LawfulGrantKeepsLaw(l: Limit, gs: seq<Grant>, now: int, n: nat)
    requires l.rate >= 0.0 && Chronological(gs, now) && RateLaw(l, gs) && Lawful(l, gs, now, n)
    ensures RateLaw(l, gs + [Grant(now, n)])
  {
    forall s, t | s <= t
      ensures GrantedIn(gs + [Grant(now, n)], s, t) as real <= l.burst as real + Refill(l, s, t)
    {
      GrantedInAppend(gs, Grant(now, n), s, t);
      if s <= now <= t {
        GrantedInClips(gs, s, t, now);
        assert GrantedIn(gs, s, now) as real + n as real <= l.burst as real + Refill(l, s, now);
        RefillMonotone(l, s, s, now, t);
      }
    }
  }

  // ------------------------------------------------------------------ the bucket as a value

  datatype Bucket = Bucket(tokens: real, last: int)

  function Refresh(l: Limit, b: Bucket, now: int): Bucket {
    Bucket(Min(b.tokens + Refill(l, b.last, now), l.burst as real), now)
  }

  predicate Affords(l: Limit, b: Bucket, now: int, n: nat) {
    Refresh(l, b, now).tokens >= n as real
  }

  /** One locked attempt of AllowN, WaitN or ReserveN: refresh, then debit if affordable. */
  function Attempt(l: Limit, b: Bucket, now: int, n: nat): Bucket {
    var r := Refresh(l, b, now);
    if Affords(l, b, now, n) then r.(tokens := r.tokens - n as real) else r
  }

  /** The bucket `b` is what the grants `gs` leave of a full bucket. */
  ghost predicate Tracks(l: Limit, b: Bucket, gs: seq<Grant>) {
    && l.rate >= 0.0
    && Chronological(gs, b.last)
    && RateLaw(l, gs)
    && b.tokens == Headroom(l, gs, b.last)
  }

  lemma NewBucketTracks(l: Limit, now: int)
    requires l.rate >= 0.0
    ensures Tracks(l, Bucket(l.burst as real, now), [])
  {
    forall s, t | s <= t
      ensures GrantedIn([], s, t) as real <= l.burst as real + Refill(l, s, t)
    {
      RefillNonNegative(l, s, t);
    }
  }

  /** Each attempt decides by the law and leaves a bucket that still tracks its grants. */
  lemma AttemptTracks(l: Limit, b: Bucket, gs: seq<Grant>, now: int, n: nat)
    requires Tracks(l, b, gs) && b.last <= now
    ensures Affords(l, b, now, n) <==> Lawful(l, gs, now, n)
    ensures Tracks(l, Attempt(l, b, now, n), if Lawful(l, gs, now, n) then gs + [Grant(now, n)] else gs)
  {
    HeadroomRefills(l, gs, b.last, now);
    HeadroomIsLaw(l, gs, now, n);
    if Lawful(l, gs, now, n) {
      HeadroomAfterGrant(l, gs, now, n);
      LawfulGrantKeepsLaw(l, gs, now, n);
    }
  }

  /** Tokens never leave [0, burst]. */
  lemma TokensInRange(l: Limit, b: Bucket, gs: seq<Grant>)
    requires Tracks(l, b, gs)
    ensures 0.0 <= b.tokens <= l.burst as real
  {
    assert Lawful(l, gs, b.last, 0);
    HeadroomIsLaw(l, gs, b.last, 0);
    HeadroomCapped(l, gs, b.last);
  }

  lemma {:induction false} HeadroomCapped(l: Limit, gs: seq<Grant>, now: int)
    ensures Headroom(l, gs, now) <= l.burst as real
  {
    if gs != [] {
      HeadroomCapped(l, gs[1..], now);
    }
  }

  // ------------------------------------------------------------------ runs

  /** One attempt of any caller: AllowN, a round of WaitN, or ReserveN. */
  datatype Try = Try(now: int, n: nat)

  ghost predicate InClockOrder(from: int, ts: seq<Try>)
    decreases |ts|
  {
    ts != [] ==> from <= ts[0].now && InClockOrder(ts[0].now, ts[1..])
  }

  function Drive(l: Limit, b: Bucket, ts: seq<Try>): Bucket
    decreases |ts|
  {
    if ts == [] then b else Drive(l, Attempt(l, b, ts[0].now, ts[0].n), ts[1..])
  }

  function Decisions(l: Limit, b: Bucket, ts: seq<Try>): seq<bool>
    decreases |ts|
  {
    if ts == [] then []
    else [Affords(l, b, ts[0].now, ts[0].n)] + Decisions(l, Attempt(l, b, ts[0].now, ts[0].n), ts[1..])
  }

  function Grants(l: Limit, b: Bucket, ts: seq<Try>): seq<Grant>
    decreases |ts|
  {
    if ts == [] then []
    else (if Affords(l, b, ts[0].now, ts[0].n) then [Grant(ts[0].now, ts[0].n)] else [])
         + Grants(l, Attempt(l, b, ts[0].now, ts[0].n), ts[1..])
  }

  /** Every run of every mix of attempts keeps the law and the token range. */
  lemma {:induction false} RunKeepsRateLaw(l: Limit, b: Bucket, gs: seq<Grant>, ts: seq<Try>)
    requires Tracks(l, b, gs) && InClockOrder(b.last, ts)
    ensures Tracks(l, Drive(l, b, ts), gs + Grants(l, b, ts))
    ensures 0.0 <= Drive(l, b, ts).tokens <= l.burst as real
    decreases |ts|
  {
    if ts == [] {
      assert gs + [] == gs;
      TokensInRange(l, b, gs);
    } else {
      var t := ts[0];
      var b' := Attempt(l, b, t.now, t.n);
      AttemptTracks(l, b, gs, t.now, t.n);
      var head := if Lawful(l, gs, t.now, t.n) then [Grant(t.now, t.n)] else [];
      assert gs + head == if Lawful(l, gs, t.now, t.n) then gs + [Grant(t.now, t.n)] else gs;
      assert b'.last == t.now;
      RunKeepsRateLaw(l, b', gs + head, ts[1..]);
      Regroup(gs, head, Grants(l, b', ts[1..]));
    }
  }

  lemma Regroup<T>(a: seq<T>, b: seq<T>, c: seq<T>)
    ensures a + b + c == a + (b + c)
  {
  }

  /** A run in two halves is the two runs one after the other. */
  lemma {:induction false} RunSplits(l: Limit, b: Bucket, xs: seq<Try>, ys: seq<Try>)
    ensures Drive(l, b, xs + ys) == Drive(l, Drive(l, b, xs), ys)
    ensures Decisions(l, b, xs + ys) == Decisions(l, b, xs) + Decisions(l, Drive(l, b, xs), ys)
    ensures Grants(l, b, xs + ys) == Grants(l, b, xs) + Grants(l, Drive(l, b, xs), ys)
    decreases |xs|
  {
    if xs == [] {
      assert xs + ys == ys;
    } else {
      var t := xs[0];
      var b' := Attempt(l, b, t.now, t.n);
      assert (xs + ys)[1..] == xs[1..] + ys && (xs + ys)[0] == t;
      RunSplits(l, b', xs[1..], ys);
      var yes := Affords(l, b, t.now, t.n);
      Regroup([yes], Decisions(l, b', xs[1..]), Decisions(l, Drive(l, b', xs[1..]), ys));
      Regroup(if yes then [Grant(t.now, t.n)] else [], Grants(l, b', xs[1..]), Grants(l, Drive(l, b', xs[1..]), ys));
    }
  }

  /** The tail of a run is in clock order from the bucket the head leaves. */
  lemma {:induction false} RunInOrder(l: Limit, b: Bucket, xs: seq<Try>, ys: seq<Try>)
    requires InClockOrder(b.last, xs + ys)
    ensures InClockOrder(Drive(l, b, xs).last, ys)
    decreases |xs|
  {
    if xs == [] {
      assert xs + ys == ys;
    } else {
      var b' := Attempt(l, b, xs[0].now, xs[0].n);
      assert (xs + ys)[1..] == xs[1..] + ys && (xs + ys)[0] == xs[0];
      assert b'.last == xs[0].now;
      RunInOrder(l, b', xs[1..], ys);
    }
  }

  /** Refreshing twice is refreshing once. */
  lemma RefreshTwice(l: Limit, b: Bucket, t1: int, t2: int)
    requires l.rate >= 0.0 && t1 <= t2
    ensures Refresh(l, Refresh(l, b, t1), t2) == Refresh(l, b, t2)
  {
    RefillSplits(l, b.last, t1, t2);
    RefillNonNegative(l, t1, t2);
  }

  /** A refresh alone, however early, changes no later decision. */
  lemma {:induction false} RefreshUnobservable(l: Limit, b: Bucket, t1: int, ts: seq<Try>)
    requires l.rate >= 0.0 && InClockOrder(t1, ts)
    ensures Decisions(l, Refresh(l, b, t1), ts) == Decisions(l, b, ts)
    ensures Grants(l, Refresh(l, b, t1), ts) == Grants(l, b, ts)
    ensures ts != [] ==> Drive(l, Refresh(l, b, t1), ts) == Drive(l, b, ts)
  {
    if ts != [] {
      RefreshTwice(l, b, t1, ts[0].now);
    }
  }

  /** A refused attempt at the head of a run changes nothing after it. */
  lemma RefusedHead(l: Limit, b: Bucket, refused: Try, after: seq<Try>)
    requires l.rate >= 0.0 && InClockOrder(refused.now, after)
    requires !Affords(l, b, refused.now, refused.n)
    ensures Decisions(l, b, [refused] + after) == [false] + Decisions(l, b, after)
    ensures Grants(l, b, [refused] + after) == Grants(l, b, after)
  {
    hide Refill;
    var run := [refused] + after;
    assert run[0] == refused && run[1..] == after;
    RefreshUnobservable(l, b, refused.now, after);
    assert Attempt(l, b, refused.now, refused.n) == Refresh(l, b, refused.now);
    assert Grants(l, b, run) == [] + Grants(l, b, after);
  }

  /** Deleting (or inserting) a refused attempt anywhere in a run changes no other decision and no
      grant. */
  lemma RefusedAttemptUnobservable(l: Limit, b: Bucket, before: seq<Try>, refused: Try, after: seq<Try>)
    requires l.rate >= 0.0 && InClockOrder(b.last, before + ([refused] + after))
    requires !Affords(l, Drive(l, b, before), refused.now, refused.n)
    ensures var mid := Drive(l, b, before);
      && Decisions(l, b, before + ([refused] + after)) == Decisions(l, b, before) + ([false] + Decisions(l, mid, after))
      && Decisions(l, b, before + after) == Decisions(l, b, before) + Decisions(l, mid, after)
      && Grants(l, b, before + ([refused] + after)) == Grants(l, b, before + after)
  {
    RunSplits(l, b, before, [refused] + after);
    RunSplits(l, b, before, after);
    RunInOrder(l, b, before, [refused] + after);
    assert ([refused] + after)[1..] == after && ([refused] + after)[0] == refused;
    hide Refill, Decisions, Grants, Drive;
    RefusedHead(l, Drive(l, b, before), refused, after);
  }

  // ------------------------------------------------------------------ continuous refill

  /** A bucket that is topped up at every instant of the clock, not only when it is asked. */
  function Ticked(l: Limit, b: Bucket, end: int): Bucket
    decreases end - b.last
  {
    if end <= b.last then b
    else
      var before := Ticked(l, b, end - 1).tokens;
      Bucket(Min(before + Refill(l, end - 1, end), l.burst as real), end)
  }

  /** Its decisions on a run. */
  function TickedDecisions(l: Limit, b: Bucket, ts: seq<Try>): seq<bool>
    decreases |ts|
  {
    if ts == [] then []
    else
      var full := Ticked(l, b, ts[0].now);
      if full.tokens >= ts[0].n as real
      then [true] + TickedDecisions(l, full.(tokens := full.tokens - ts[0].n as real), ts[1..])
      else [false] + TickedDecisions(l, full, ts[1..])
  }

  /** One lazy refresh catches up with all the ticks it missed. */
  lemma {:induction false} TicksAddUp(l: Limit, b: Bucket, end: int)
    requires l.rate >= 0.0 && b.tokens <= l.burst as real && b.last <= end
    ensures Ticked(l, b, end) == Refresh(l, b, end)
    decreases end - b.last
  {
    if end == b.last {
      assert Refill(l, end, end) == 0.0;
    } else {
      TicksAddUp(l, b, end - 1);
      RefillSplits(l, b.last, end - 1, end);
      RefillNonNegative(l, end - 1, end);
    }
  }

  /** Lazy refill is continuous refill: on every run the two buckets decide alike. */
  lemma {:induction false} LazyIsContinuous(l: Limit, b: Bucket, ts: seq<Try>)
    requires l.rate >= 0.0 && b.tokens <= l.burst as real && InClockOrder(b.last, ts)
    ensures Decisions(l, b, ts) == TickedDecisions(l, b, ts)
    decreases |ts|
  {
    if ts != [] {
      TicksAddUp(l, b, ts[0].now);
      LazyIsContinuous(l, Attempt(l, b, ts[0].now, ts[0].n), ts[1..]);
    }
  }

  // ------------------------------------------------------------------ delays

  /** The wait the code computes for a deficit: truncated to whole nanoseconds. */
  function Delay(l: Limit, deficit: real): int
    requires l.rate > 0.0
  {
    (deficit / l.rate * NANOS_PER_SECOND).Floor
  }

  /** By any instant short of the computed delay less accrues than the deficit; from the computed
      delay on, less than one nanosecond's worth is missing; past it nothing is. */
  lemma DelayGain(l: Limit, deficit: real, from: int, to: int)
    requires l.rate > 0.0
    ensures to < from + Delay(l, deficit) ==> Refill(l, from, to) < deficit
    ensures to >= from + Delay(l, deficit) ==> Refill(l, from, to) > deficit - Refill(l, 0, 1)
    ensures to > from + Delay(l, deficit) ==> Refill(l, from, to) > deficit
    ensures deficit >= 0.0 ==> Delay(l, deficit) >= 0
  {
    var exact := deficit / l.rate * NANOS_PER_SECOND;
    var w := Delay(l, deficit);
    assert w as real <= exact < w as real + 1.0;
    ExactWait(l, deficit, from, to);
    ExactWait(l, deficit, from, to + 1);
    RefillSplits(l, from, to, to + 1);
    OneNanosecond(l, to);
    if deficit >= 0.0 {
      assert deficit / l.rate >= 0.0;
    }
  }

  lemma OneNanosecond(l: Limit, t: int)
    ensures Refill(l, t, t + 1) == Refill(l, 0, 1)
  {
  }

  /** Without truncation the wait is exact. */
  lemma ExactWait(l: Limit, deficit: real, from: int, to: int)
    requires l.rate > 0.0
    ensures (to - from) as real < deficit / l.rate * NANOS_PER_SECOND ==> Refill(l, from, to) < deficit
    ensures (to - from) as real > deficit / l.rate * NANOS_PER_SECOND ==> Refill(l, from, to) > deficit
  {
    var exact := deficit / l.rate * NANOS_PER_SECOND;
    DivideBack(deficit, l.rate);
    if (to - from) as real < exact {
      ScaleStrict(l.rate, (to - from) as real, exact);
    } else if (to - from) as real > exact {
      ScaleStrict(l.rate, exact, (to - from) as real);
    }
  }

  lemma DivideBack(x: real, rate: real)
    requires rate > 0.0
    ensures x / rate * NANOS_PER_SECOND / NANOS_PER_SECOND * rate == x
  {
    var q := x / rate;
    assert q * NANOS_PER_SECOND / NANOS_PER_SECOND == q;
    assert q * rate == x;
  }

  lemma ScaleStrict(rate: real, x: real, y: real)
    requires rate > 0.0 && x < y
    ensures x / NANOS_PER_SECOND * rate < y / NANOS_PER_SECOND * rate
  {
    var p, q := x / NANOS_PER_SECOND, y / NANOS_PER_SECOND;
    assert p < q;
    assert (q - p) * rate > 0.0;
  }

  // ------------------------------------------------------------------ the mutable object

  class TokenBucket {
    const limit: Limit
    var tokens: real
    var lastTime: int
    /** Every grant made so far, oldest first. */
    ghost var grants: seq<Grant>

    ghost predicate Valid() reads this {
      Tracks(limit, Bucket(tokens, lastTime), grants)
    }

    constructor (rate: real, burst: nat, now: int)
      requires rate >= 0.0
      ensures Valid() && limit == Limit(rate, burst) && lastTime == now && grants == []
    {
      limit := Limit(rate, burst);
      tokens := burst as real;
      lastTime := now;
      grants := [];
      new;
      NewBucketTracks(limit, now);
    }

    method RefreshTokens(now: int)
      modifies this`tokens, this`lastTime
      ensures Bucket(tokens, lastTime) == Refresh(limit, old(Bucket(tokens, lastTime)), now)
    {
      var elapsed := (now - lastTime) as real / NANOS_PER_SECOND;
      lastTime := now;
      tokens := tokens + elapsed * limit.rate;
      if tokens > limit.burst as real {
        tokens := limit.burst as real;
      }
    }

    /** Granted exactly when the rate law permits it. */
    method AllowN(n: nat, now: int) returns (ok: bool)
      requires Valid() && lastTime <= now
      modifies this
      ensures Valid() && lastTime == now
      ensures Bucket(tokens, lastTime) == Attempt(limit, old(Bucket(tokens, lastTime)), now, n)
      ensures ok <==> Lawful(limit, old(grants), now, n)
      ensures grants == if ok then old(grants) + [Grant(now, n)] else old(grants)
    {
      AttemptTracks(limit, Bucket(tokens, lastTime), grants, now, n);
      RefreshTokens(now);
      if tokens >= n as real {
        tokens := tokens - n as real;
        grants := grants + [Grant(now, n)];
        return true;
      }
      return false;
    }

    /** An undelayed reservation debits exactly when the law permits it.  A delayed one debits
        nothing; left alone, the bucket refuses `n` before `now + delay` and, when `n` fits the
        burst, grants it from the next nanosecond on. */
    method ReserveN(n: nat, now: int, actAt: int) returns (r: Reservation)
      requires Valid() && lastTime <= now
      requires limit.rate > 0.0 || Lawful(limit, grants, now, n)
      modifies this
      ensures Valid() && lastTime == now && r.ok && r.timeToAct == actAt + r.delay
      ensures Bucket(tokens, lastTime) == Attempt(limit, old(Bucket(tokens, lastTime)), now, n)
      ensures Lawful(limit, old(grants), now, n) ==> r.delay == 0 && grants == old(grants) + [Grant(now, n)]
      ensures !Lawful(limit, old(grants), now, n) ==>
                && grants == old(grants) && r.delay >= 0
                && (forall t :: now <= t < now + r.delay ==> !Lawful(limit, grants, t, n))
                && (n <= limit.burst ==> forall t :: now + r.delay < t ==> Lawful(limit, grants, t, n))
    {
      ghost var gs := grants;
      AttemptTracks(limit, Bucket(tokens, lastTime), grants, now, n);
      RefreshTokens(now);
      if tokens >= n as real {
        tokens := tokens - n as real;
        grants := grants + [Grant(now, n)];
        return Reservation(true, 0, actAt);
      }
      var deficit := n as real - tokens;
      var delay := Delay(limit, deficit);
      DelayGain(limit, deficit, now, 0);
      hide RateLaw, Refill, Lawful, Delay;
      forall t | now <= t
        ensures t < now + delay ==> !Lawful(limit, gs, t, n)
        ensures n <= limit.burst && now + delay < t ==> Lawful(limit, gs, t, n)
      {
        DelayDecides(limit, gs, now, n, t);
      }
      return Reservation(true, delay, actAt + delay);
    }

    /** The retry loop.  Round k sleeps for the computed delay and is woken `lags[k]` nanoseconds
        late; the context is cancelled during the sleep after the last lag.  `readings` are the
        clock values of the checks.  The first check with lawful room grants, and no sleep is
        planned beyond the first instant with room; a request above the burst is never granted; one
        that fits is granted by the check after the first late timer, and by the third check if the
        clock moved between the second and the third at all. */
    method WaitN(n: nat, start: int, lags: seq<nat>) returns (granted: bool, checks: nat, readings: seq<int>)
      requires Valid() && lastTime <= start
      requires limit.rate > 0.0 || Lawful(limit, grants, start, n)
      modifies this
      ensures Valid()
      ensures 1 <= checks == |readings| <= |lags| + 1
      ensures readings[0] == start && readings[checks - 1] == lastTime
      ensures granted <==> Lawful(limit, old(grants), lastTime, n)
      ensures forall k :: 0 <= k < checks - 1 ==> !Lawful(limit, old(grants), readings[k], n)
      ensures Lawful(limit, old(grants), start, n) ==> granted && checks == 1
      ensures forall k :: 0 <= k < checks - 1 ==>
                Unlawful(limit, old(grants), n, readings[k], readings[k + 1] - lags[k])
      ensures granted ==> grants == old(grants) + [Grant(lastTime, n)]
      ensures !granted ==> grants == old(grants) && checks == |lags| + 1
      ensures n > limit.burst ==> !granted
      ensures n <= limit.burst ==> forall k :: 0 <= k < |lags| && lags[k] >= 1 ==> granted && checks <= k + 2
      ensures n <= limit.burst && |lags| >= 2 && (checks >= 3 ==> readings[1] < readings[2]) ==> granted && checks <= 3
    {
      hide Refill, Delay, Headroom, Lawful, RateLaw, Chronological, Unlawful, Refused;
      var now := start;
      checks, readings := 0, [];
      ghost var gs := grants;
      RefusedStart(limit, gs, n, lags, start);
      while true
        invariant Valid() && lastTime <= now && grants == gs && checks == |readings| <= |lags|
        invariant checks == 0 ==> now == start
        invariant checks > 0 ==> limit.rate > 0.0
        invariant Refused(limit, gs, n, lags, readings, now)
        invariant checks > 0 ==> readings[0] == start
        invariant checks >= 1 && n <= limit.burst ==> AlmostAffords(limit, Bucket(tokens, lastTime), now, n)
        invariant checks >= 1 && n <= limit.burst && lags[checks - 1] >= 1 ==>
                    Affords(limit, Bucket(tokens, lastTime), now, n)
        invariant n <= limit.burst ==> forall k :: 0 <= k < checks - 1 ==> lags[k] == 0
        invariant checks >= 2 && n <= limit.burst ==>
                    Affords(limit, Bucket(tokens, lastTime), now, n) || now == readings[checks - 1]
        invariant checks >= 3 && n <= limit.burst ==> readings[2] == readings[1]
        decreases |lags| - checks
      {
        ghost var b := Bucket(tokens, lastTime);
        AttemptTracks(limit, b, grants, now, n);
        RefusedMeans(limit, gs, n, lags, readings, now);
        RefreshTokens(now);
        ghost var refused := readings;
        checks, readings := checks + 1, readings + [now];
        if tokens >= n as real {
          tokens := tokens - n as real;
          grants := grants + [Grant(now, n)];
          BurstBoundsGrant(limit, gs, now, n);
          return true, checks, readings;
        }
        if checks > |lags| {
          return false, checks, readings;
        }
        var deficit := n as real - tokens;
        var waitTime := Delay(limit, deficit);
        SleepsWithoutRoom(limit, b, gs, now, n);
        RefusedStep(limit, gs, n, lags, refused, now, now + waitTime);
        WaitStep(limit, b, now, n, lags[checks - 1]);
        now := now + waitTime + lags[checks - 1];
      }
    }
  }

  /** From `from` until short of `to` the law permits no `n`. */
  ghost predicate Unlawful(l: Limit, gs: seq<Grant>, n: nat, from: int, to: int) {
    forall t :: from <= t < to ==> !Lawful(l, gs, t, n)
  }

  /** The checks at `readings` were refused, and so would have been any while the loop slept as
      planned; the next check is at `now`. */
  ghost predicate Refused(l: Limit, gs: seq<Grant>, n: nat, lags: seq<nat>, readings: seq<int>, now: int) {
    && |readings| <= |lags|
    && forall k :: 0 <= k < |readings| ==>
         && !Lawful(l, gs, readings[k], n)
         && Unlawful(l, gs, n, readings[k], (readings + [now])[k + 1] - lags[k])
  }

  lemma RefusedStart(l: Limit, gs: seq<Grant>, n: nat, lags: seq<nat>, start: int)
    ensures Refused(l, gs, n, lags, [], start)
  {
  }

  lemma RefusedStep(l: Limit, gs: seq<Grant>, n: nat, lags: seq<nat>, readings: seq<int>, now: int, planned: int)
    requires Refused(l, gs, n, lags, readings, now) && |readings| < |lags|
    requires !Lawful(l, gs, now, n) && Unlawful(l, gs, n, now, planned)
    ensures Refused(l, gs, n, lags, readings + [now], planned + lags[|readings|])
  {
    hide Lawful, Unlawful;
  }

  lemma RefusedMeans(l: Limit, gs: seq<Grant>, n: nat, lags: seq<nat>, readings: seq<int>, now: int)
    requires Refused(l, gs, n, lags, readings, now)
    ensures forall k :: 0 <= k < |readings| ==> !Lawful(l, gs, readings[k], n)
    ensures forall k :: 0 <= k < |readings| ==>
              Unlawful(l, gs, n, readings[k], (readings + [now])[k + 1] - lags[k])
  {
  }

  /** Until the planned end of a sleep the request is unlawful. */
  lemma SleepsWithoutRoom(l: Limit, b: Bucket, gs: seq<Grant>, now: int, n: nat)
    requires Tracks(l, b, gs) && b.last <= now && l.rate > 0.0 && !Affords(l, b, now, n)
    ensures Unlawful(l, gs, n, now, now + Delay(l, n as real - Refresh(l, b, now).tokens))
  {
    HeadroomRefills(l, gs, b.last, now);
    hide RateLaw, Refill, Lawful, Delay, Headroom;
    forall t | now <= t < now + Delay(l, n as real - Refresh(l, b, now).tokens)
      ensures !Lawful(l, gs, t, n)
    {
      DelayDecides(l, gs, now, n, t);
    }
  }

  /** Less than one nanosecond's worth of tokens is missing. */
  predicate AlmostAffords(l: Limit, b: Bucket, now: int, n: nat) {
    Refresh(l, b, now).tokens > n as real - Refill(l, 0, 1)
  }

  /** What one refused check and its sleep achieve: at most a truncation error is left, a late
      timer makes up for it, and such an error asks for no further sleep. */
  lemma WaitStep(l: Limit, b: Bucket, now: int, n: nat, lag: nat)
    requires l.rate > 0.0 && !Affords(l, b, now, n)
    ensures var r := Refresh(l, b, now);
      var wait := Delay(l, n as real - r.tokens);
      && wait >= 0
      && (n <= l.burst ==> AlmostAffords(l, r, now + wait + lag, n))
      && (n <= l.burst && lag >= 1 ==> Affords(l, r, now + wait + lag, n))
      && (AlmostAffords(l, b, now, n) ==> wait == 0)
  {
    var r := Refresh(l, b, now);
    var deficit := n as real - r.tokens;
    DelayGain(l, deficit, now, now + Delay(l, deficit) + lag);
    OneNanosecondCounts(l);
    if AlmostAffords(l, b, now, n) {
      SmallDeficit(l, deficit);
    }
  }

  lemma OneNanosecondCounts(l: Limit)
    requires l.rate > 0.0
    ensures Refill(l, 0, 1) > 0.0
  {
    ScaleStrict(l.rate, 0.0, 1.0);
  }

  lemma BurstBoundsGrant(l: Limit, gs: seq<Grant>, now: int, n: nat)
    requires Lawful(l, gs, now, n)
    ensures n <= l.burst
  {
    assert GrantedIn(gs, now, now) as real + n as real <= l.burst as real + Refill(l, now, now);
    assert Refill(l, now, now) == 0.0;
  }

  /** A deficit below one nanosecond's worth truncates to no wait at all. */
  lemma SmallDeficit(l: Limit, deficit: real)
    requires l.rate > 0.0 && 0.0 <= deficit < Refill(l, 0, 1)
    ensures Delay(l, deficit) == 0
  {
    DelayGain(l, deficit, 0, 0);
    if Delay(l, deficit) >= 1 {
      DelayGain(l, deficit, 0, 1);
    }
  }

  lemma DelayDecides(l: Limit, gs: seq<Grant>, now: int, n: nat, t: int)
    requires l.rate > 0.0 && Chronological(gs, now) && Headroom(l, gs, now) < n as real && now <= t
    ensures t < now + Delay(l, n as real - Headroom(l, gs, now)) ==> !Lawful(l, gs, t, n)
    ensures n <= l.burst && now + Delay(l, n as real - Headroom(l, gs, now)) < t ==> Lawful(l, gs, t, n)
  {
    var deficit := n as real - Headroom(l, gs, now);
    HeadroomRefills(l, gs, now, t);
    HeadroomIsLaw(l, gs, t, n);
    DelayGain(l, deficit, now, t);
  }
}
