/** The sliding-window limiter of internal/ratelimit/ratelimit.go.

    The object keeps only a trimmed list of admission stamps.  It is proved against the full
    admission log: the trimmed list is the part of the log no older than the window, a request is
    admitted exactly when the closed window ending now holds fewer than `limit` admissions, and no
    closed interval of the window's length ever holds more than `limit`.

    Every critical section reads the clock separately for trimming and for stamping. */
module SlidingWindows {
  import opened Reservations

  /** Admissions stamped in the closed interval [s, t]. */
  function CountIn(log: seq<int>, s: int, t: int): nat {
    if log == [] then 0 else (if s <= log[0] <= t then 1 else 0) + CountIn(log[1..], s, t)
  }

  /** The entries of the whole log no older than the cutoff: what a limiter that rescans all of
      its history would keep. */
  function Recent(log: seq<int>, cutoff: int): seq<int> {
    if log == [] then [] else (if log[0] >= cutoff then [log[0]] else []) + Recent(log[1..], cutoff)
  }

  ghost predicate Sorted(log: seq<int>) {
    forall i, j :: 0 <= i < j < |log| ==> log[i] <= log[j]
  }

  ghost predicate UpTo(log: seq<int>, now: int) {
    forall i :: 0 <= i < |log| ==> log[i] <= now
  }

  /** An admission and the one `limit` places later lie more than a window apart. */
  ghost predicate Spaced(log: seq<int>, limit: nat, window: nat) {
    forall i, j :: 0 <= i && j < |log| && j == i + limit ==> log[i] + window < log[j]
  }

  /** The law: no closed interval of the window's length holds more than `limit` admissions. */
  ghost predicate WindowLaw(log: seq<int>, limit: nat, window: nat) {
    forall s, t :: s <= t <= s + window ==> CountIn(log, s, t) <= limit
  }

  /** The closed window that ends at `t` holds fewer than `limit` admissions. */
  ghost predicate HasRoom(log: seq<int>, limit: nat, window: nat, t: int) {
    CountIn(log, t - window, t) < limit
  }

  /** At no instant after `from` and up to `to` is there room. */
  ghost predicate NoRoom(log: seq<int>, limit: nat, window: nat, from: int, to: int) {
    forall t :: from < t <= to ==> !HasRoom(log, limit, window, t)
  }

  // ------------------------------------------------------------------ counting a sorted log

  /** In a sorted log the entries of an interval are one contiguous block. */
  lemma {:induction false} CountIsBlock(log: seq<int>, s: int, t: int) returns (i: nat, j: nat)
    requires Sorted(log)
    ensures i <= j <= |log| && j - i == CountIn(log, s, t)
    ensures forall k :: i <= k < j ==> s <= log[k] <= t
    ensures forall k :: 0 <= k < i ==> log[k] < s
  {
    if log == [] {
      i, j := 0, 0;
    } else if log[0] < s {
      var i', j' := CountIsBlock(log[1..], s, t);
      i, j := i' + 1, j' + 1;
      forall k | 0 <= k < i
        ensures log[k] < s
      {
        if k > 0 {
          assert log[k] == log[1..][k - 1];
        }
      }
      forall k | i <= k < j
        ensures s <= log[k] <= t
      {
        assert log[k] == log[1..][k - 1];
      }
    } else if log[0] <= t {
      var i', j' := CountIsBlock(log[1..], s, t);
      assert i' == 0 by {
        assert log[1..] != [] ==> log[1..][0] == log[1] >= s;
      }
      i, j := 0, j' + 1;
      forall k | 0 <= k < j
        ensures s <= log[k] <= t
      {
        if k > 0 {
          assert log[k] == log[1..][k - 1];
        }
      }
    } else {
      NoneAfter(log, s, t);
      i, j := 0, 0;
    }
  }

  lemma {:induction false} NoneAfter(log: seq<int>, s: int, t: int)
    requires forall k :: 0 <= k < |log| ==> t < log[k]
    ensures CountIn(log, s, t) == 0
  {
    if log != [] {
      NoneAfter(log[1..], s, t);
    }
  }

  /** Spacing is the local form of the law. */
  lemma SpacingIsLaw(log: seq<int>, limit: nat, window: nat)
    requires Sorted(log) && Spaced(log, limit, window)
    ensures WindowLaw(log, limit, window)
  {
    forall s, t | s <= t <= s + window
      ensures CountIn(log, s, t) <= limit
    {
      var i, j := CountIsBlock(log, s, t);
      assert i + limit < |log| ==> log[i] + window < log[i + limit];
    }
  }

  lemma {:induction false} CountInAppend(log: seq<int>, x: int, s: int, t: int)
    ensures CountIn(log + [x], s, t) == CountIn(log, s, t) + (if s <= x <= t then 1 else 0)
  {
    if log == [] {
      assert log + [x] == [x];
    } else {
      assert (log + [x])[1..] == log[1..] + [x];
      CountInAppend(log[1..], x, s, t);
    }
  }

  // ------------------------------------------------------------------ the trimmed list

  lemma {:induction false} RecentAppend(log: seq<int>, x: int, cutoff: int)
    ensures Recent(log + [x], cutoff) == Recent(log, cutoff) + (if x >= cutoff then [x] else [])
  {
    if log == [] {
      assert log + [x] == [x];
    } else {
      assert (log + [x])[1..] == log[1..] + [x];
      RecentAppend(log[1..], x, cutoff);
    }
  }

  /** Trimming again at a later cutoff equals rescanning everything. */
  lemma {:induction false} RecentTwice(log: seq<int>, c1: int, c2: int)
    requires c1 <= c2
    ensures Recent(Recent(log, c1), c2) == Recent(log, c2)
  {
    if log != [] {
      RecentTwice(log[1..], c1, c2);
      if log[0] >= c1 {
        assert Recent(log, c1) == [log[0]] + Recent(log[1..], c1);
        assert Recent(log, c1)[1..] == Recent(log[1..], c1);
      } else {
        assert Recent(log, c1) == Recent(log[1..], c1);
      }
    }
  }

  /** In a sorted log the recent entries are a suffix, so dropping a prefix finds them. */
  lemma {:induction false} RecentIsSuffix(log: seq<int>, cutoff: int, i: nat)
    requires Sorted(log) && i <= |log|
    requires forall k :: 0 <= k < i ==> log[k] < cutoff
    requires i < |log| ==> cutoff <= log[i]
    ensures Recent(log, cutoff) == log[i..]
  {
    if log != [] {
      if i == 0 {
        RecentIsSuffix(log[1..], cutoff, 0);
      } else {
        RecentIsSuffix(log[1..], cutoff, i - 1);
        assert log[1..][i - 1..] == log[i..];
      }
    }
  }

  /** The number of recent entries is the count over the closed window ending at `now`. */
  lemma {:induction false} RecentCounts(log: seq<int>, cutoff: int, now: int)
    requires UpTo(log, now)
    ensures |Recent(log, cutoff)| == CountIn(log, cutoff, now)
  {
    if log != [] {
      RecentCounts(log[1..], cutoff, now);
    }
  }

  lemma {:induction false} RecentSorted(log: seq<int>, cutoff: int)
    requires Sorted(log)
    ensures Sorted(Recent(log, cutoff))
    ensures forall x :: x in Recent(log, cutoff) ==> x in log && x >= cutoff
  {
    if log != [] {
      RecentSorted(log[1..], cutoff);
      forall x | x in Recent(log[1..], cutoff)
        ensures log[0] <= x
      {
        assert x in log[1..];
      }
    }
  }

  /** The oldest recent entry is the log's entry that many places from its end. */
  lemma RecentIsLogSuffix(log: seq<int>, cutoff: int)
    requires Sorted(log)
    ensures |Recent(log, cutoff)| <= |log|
    ensures Recent(log, cutoff) == log[|log| - |Recent(log, cutoff)|..]
    ensures forall k :: 0 <= k < |log| - |Recent(log, cutoff)| ==> log[k] < cutoff
  {
    var i := 0;
    while i < |log| && log[i] < cutoff
      invariant i <= |log| && forall k :: 0 <= k < i ==> log[k] < cutoff
    {
      i := i + 1;
    }
    RecentIsSuffix(log, cutoff, i);
  }

  /** Admitting into a window that holds fewer than `limit` keeps the spacing. */
  lemma AdmissionKeepsSpacing(log: seq<int>, limit: nat, window: nat, now: int, stamp: int)
    requires Sorted(log) && Spaced(log, limit, window) && UpTo(log, now) && now <= stamp
    requires HasRoom(log, limit, window, now)
    ensures Sorted(log + [stamp]) && Spaced(log + [stamp], limit, window)
  {
    RecentCounts(log, now - window, now);
    RecentIsLogSuffix(log, now - window);
    forall i, j | 0 <= i && j < |log + [stamp]| && j == i + limit
      ensures (log + [stamp])[i] + window < (log + [stamp])[j]
    {
      if j == |log| {
        assert log[i] < now - window;
      }
    }
  }

  /** There is room exactly when admitting at that instant keeps the law: the limiter refuses nothing
      it could admit. */
  lemma RoomIsLaw(log: seq<int>, limit: nat, window: nat, t: int)
    requires Sorted(log) && Spaced(log, limit, window) && UpTo(log, t)
    ensures HasRoom(log, limit, window, t) <==> WindowLaw(log + [t], limit, window)
  {
    if HasRoom(log, limit, window, t) {
      AdmissionKeepsSpacing(log, limit, window, t, t);
      SpacingIsLaw(log + [t], limit, window);
    }
    if WindowLaw(log + [t], limit, window) {
      CountInAppend(log, t, t - window, t);
      assert CountIn(log + [t], t - window, t) <= limit;
    }
  }

  // ------------------------------------------------------------------ runs

  /** One critical section of Allow, Wait or Reserve: it trims at `now` and stamps at `stamp`. */
  datatype Try = Try(now: int, stamp: int)

  ghost predicate InClockOrder(from: int, ts: seq<Try>)
    decreases |ts|
  {
    ts != [] ==> from <= ts[0].now <= ts[0].stamp && InClockOrder(ts[0].stamp, ts[1..])
  }

  /** Drop the leading entries older than the cutoff, and only those. */
  function DropOld(requests: seq<int>, cutoff: int): seq<int> {
    if requests != [] && requests[0] < cutoff then DropOld(requests[1..], cutoff) else requests
  }

  /** Decisions of the limiter, which keeps and trims a list. */
  function TrimmedRun(limit: nat, window: nat, requests: seq<int>, ts: seq<Try>): seq<bool>
    decreases |ts|
  {
    if ts == [] then []
    else
      var kept := DropOld(requests, ts[0].now - window);
      if |kept| < limit then [true] + TrimmedRun(limit, window, kept + [ts[0].stamp], ts[1..])
      else [false] + TrimmedRun(limit, window, kept, ts[1..])
  }

  /** Decisions of a limiter that never forgets and recounts its whole log each time. */
  ghost function RescanRun(limit: nat, window: nat, log: seq<int>, ts: seq<Try>): seq<bool>
    decreases |ts|
  {
    if ts == [] then []
    else if HasRoom(log, limit, window, ts[0].now)
    then [true] + RescanRun(limit, window, log + [ts[0].stamp], ts[1..])
    else [false] + RescanRun(limit, window, log, ts[1..])
  }

  /** The admissions a run adds to the log. */
  function AdmittedIn(ts: seq<Try>, decisions: seq<bool>): seq<int>
    requires |ts| == |decisions|
  {
    if ts == [] then []
    else (if decisions[0] then [ts[0].stamp] else []) + AdmittedIn(ts[1..], decisions[1..])
  }

  lemma {:induction false} DropOldIsRecent(requests: seq<int>, cutoff: int)
    requires Sorted(requests)
    ensures DropOld(requests, cutoff) == Recent(requests, cutoff)
  {
    if requests != [] {
      if requests[0] < cutoff {
        DropOldIsRecent(requests[1..], cutoff);
      } else {
        RecentIsSuffix(requests, cutoff, 0);
      }
    }
  }

  /** One trimming step of the list is one trimming step of the log. */
  lemma TrimStep(limit: nat, window: nat, log: seq<int>, cutoff: int, now: int)
    requires Sorted(log) && UpTo(log, now) && cutoff <= now - window
    ensures DropOld(Recent(log, cutoff), now - window) == Recent(log, now - window)
    ensures |Recent(log, now - window)| < limit <==> HasRoom(log, limit, window, now)
  {
    hide Recent, DropOld, CountIn;
    RecentSorted(log, cutoff);
    DropOldIsRecent(Recent(log, cutoff), now - window);
    RecentTwice(log, cutoff, now - window);
    RecentCounts(log, now - window, now);
  }

  lemma StampKeepsOrder(log: seq<int>, now: int, stamp: int)
    requires Sorted(log) && UpTo(log, now) && now <= stamp
    ensures Sorted(log + [stamp]) && UpTo(log + [stamp], stamp) && UpTo(log, stamp)
  {
  }

  /** The trimmed list decides every run as the full log would. */
  lemma {:induction false} TrimmedRunAgrees(limit: nat, window: nat, log: seq<int>, cutoff: int, clock: int,
                                            ts: seq<Try>)
    requires Sorted(log) && UpTo(log, clock) && cutoff <= clock - window && InClockOrder(clock, ts)
    ensures TrimmedRun(limit, window, Recent(log, cutoff), ts) == RescanRun(limit, window, log, ts)
    decreases |ts|
  {
    if ts != [] {
      var t := ts[0];
      TrimStep(limit, window, log, cutoff, t.now);
      RecentAppend(log, t.stamp, t.now - window);
      StampKeepsOrder(log, t.now, t.stamp);
      var log' := if HasRoom(log, limit, window, t.now) then log + [t.stamp] else log;
      TrimmedRunAgrees(limit, window, log', t.now - window, t.stamp, ts[1..]);
    }
  }

  lemma {:induction false} RescanRunLength(limit: nat, window: nat, log: seq<int>, ts: seq<Try>)
    ensures |RescanRun(limit, window, log, ts)| == |ts|
    decreases |ts|
  {
    if ts != [] {
      RescanRunLength(limit, window, log + [ts[0].stamp], ts[1..]);
      RescanRunLength(limit, window, log, ts[1..]);
    }
  }

  /** Every run of every mix of attempts keeps the window law over its whole history. */
  lemma {:induction false} RunKeepsWindowLaw(limit: nat, window: nat, log: seq<int>, clock: int, ts: seq<Try>)
    requires Sorted(log) && UpTo(log, clock) && Spaced(log, limit, window) && InClockOrder(clock, ts)
    ensures |RescanRun(limit, window, log, ts)| == |ts|
    ensures WindowLaw(log + AdmittedIn(ts, RescanRun(limit, window, log, ts)), limit, window)
    decreases |ts|
  {
    RescanRunLength(limit, window, log, ts);
    if ts == [] {
      assert log + [] == log;
      SpacingIsLaw(log, limit, window);
    } else if HasRoom(log, limit, window, ts[0].now) {
      var log' := log + [ts[0].stamp];
      AdmissionKeepsSpacing(log, limit, window, ts[0].now, ts[0].stamp);
      RunKeepsWindowLaw(limit, window, log', ts[0].stamp, ts[1..]);
      var later := AdmittedIn(ts[1..], RescanRun(limit, window, log', ts[1..]));
      assert log' + later == log + ([ts[0].stamp] + later);
      assert RescanRun(limit, window, log, ts)[1..] == RescanRun(limit, window, log', ts[1..]);
    } else {
      RunKeepsWindowLaw(limit, window, log, ts[0].stamp, ts[1..]);
      var later := AdmittedIn(ts[1..], RescanRun(limit, window, log, ts[1..]));
      assert [] + later == later;
      assert RescanRun(limit, window, log, ts)[1..] == RescanRun(limit, window, log, ts[1..]);
    }
  }

  // ------------------------------------------------------------------ the mutable object

  /** Clock steps inside one round of Wait: from trimming to the next reading, and how late the
      timer fires. */
  datatype Round = Round(gap: nat, lag: nat)

  class SlidingWindow {
    const limit: nat
    const window: nat
    var requests: seq<int>
    /** Stamps of all admissions ever made, oldest first. */
    ghost var log: seq<int>
    /** The latest clock reading and the cutoff last trimmed at. */
    ghost var clock: int
    ghost var cutoff: int

    ghost predicate Valid() reads this {
      && Sorted(log) && UpTo(log, clock)
      && Spaced(log, limit, window)
      && cutoff <= clock - window
      && requests == Recent(log, cutoff)
      && |requests| <= limit
    }

    constructor (limit: nat, window: nat, now: int)
      ensures Valid() && this.limit == limit && this.window == window && log == [] && clock == now
    {
      this.limit := limit;
      this.window := window;
      requests := [];
      log, clock, cutoff := [], now, now - window;
    }

    /** After trimming, the list is what rescanning the whole log would keep. */
    method Cleanup(now: int)
      requires Valid() && clock <= now
      modifies this
      ensures Valid() && log == old(log) && clock == now && cutoff == now - window
      ensures requests == Recent(log, now - window)
      ensures |requests| == CountIn(log, now - window, now)
    {
      RecentSorted(log, cutoff);
      var cut := now - window;
      var i := 0;
      while i < |requests| && requests[i] < cut
        invariant 0 <= i <= |requests|
        invariant forall k :: 0 <= k < i ==> requests[k] < cut
      {
        i := i + 1;
      }
      RecentIsSuffix(requests, cut, i);
      RecentTwice(log, cutoff, cut);
      requests := requests[i..];
      clock, cutoff := now, cut;
      RecentCounts(log, cut, now);
    }

    /** Append the admission stamp read at `stamp`. */
    method Admit(stamp: int)
      requires Valid() && clock <= stamp
      requires |requests| < limit && cutoff == clock - window
      modifies this
      ensures Valid() && log == old(log) + [stamp] && clock == stamp
    {
      RecentCounts(log, cutoff, clock);
      AdmissionKeepsSpacing(log, limit, window, clock, stamp);
      RecentAppend(log, stamp, cutoff);
      requests := requests + [stamp];
      log, clock := log + [stamp], stamp;
    }

    /** Admitted exactly when the closed window ending at the trimming instant has room. */
    method Allow(now: int, stamp: int) returns (ok: bool)
      requires Valid() && clock <= now <= stamp
      modifies this
      ensures Valid()
      ensures ok <==> HasRoom(old(log), limit, window, now)
      ensures log == if ok then old(log) + [stamp] else old(log)
    {
      Cleanup(now);
      if |requests| < limit {
        Admit(stamp);
        return true;
      }
      return false;
    }

    /** A reservation with room admits now.  A delayed one admits nothing; left alone, the window
        has room from the nanosecond after the announced delay counted from `later`, the reading
        it was computed with, and not before. */
    method Reserve(now: int, later: int, actAt: int) returns (r: Reservation)
      requires Valid() && clock <= now <= later <= actAt
      requires limit >= 1
      modifies this
      ensures Valid() && r.ok && r.timeToAct == actAt + r.delay
      ensures HasRoom(old(log), limit, window, now) ==> r.delay == 0 && log == old(log) + [later]
      ensures !HasRoom(old(log), limit, window, now) ==>
                && log == old(log)
                && (forall t :: now <= t ==> (later + r.delay < t <==> HasRoom(log, limit, window, t)))
    {
      Cleanup(now);
      if |requests| < limit {
        Admit(later);
        return Reservation(true, 0, actAt);
      }
      var oldest := requests[0];
      var delay := window - (later - oldest);
      forall t | now <= t
        ensures oldest + window < t <==> HasRoom(log, limit, window, t)
      {
        RoomFrom(log, limit, window, now, t);
      }
      return Reservation(true, delay, actAt + delay);
    }

    /** The retry loop.  Round k reads the clock `gap` after trimming, sleeps until the oldest
        entry is a window old and is woken `lag` late; the context is cancelled during the sleep
        after the last round.  `instants` are the trimming readings of the checks.  The first check
        with room admits, and there is no room while it sleeps as planned.  Left alone it is
        admitted by the second check if the first timer fires late at all (an entry exactly a window
        old still counts), by the third in any case once the second does. */
    method Wait(start: int, rounds: seq<Round>) returns (admitted: bool, checks: nat, instants: seq<int>)
      requires Valid() && clock <= start && limit >= 1
      modifies this
      ensures Valid()
      ensures 1 <= checks == |instants| <= |rounds| + 1 && instants[0] == start
      ensures admitted <==> HasRoom(old(log), limit, window, instants[checks - 1])
      ensures forall k :: 0 <= k < checks - 1 ==> !HasRoom(old(log), limit, window, instants[k])
      ensures HasRoom(old(log), limit, window, start) ==> admitted && checks == 1
      ensures forall k :: 0 <= k < checks - 1 ==>
                NoRoom(old(log), limit, window, instants[k] + rounds[k].gap, instants[k + 1] - rounds[k].lag)
      ensures admitted ==> log == old(log) + [clock] && clock >= instants[checks - 1]
      ensures !admitted ==> log == old(log) && checks == |rounds| + 1
      ensures forall k :: 0 <= k < |rounds| && rounds[k].lag >= 1 ==> admitted && checks <= k + 2
    {
      hide HasRoom, NoRoom, Sorted, UpTo, Spaced, Recent, CountIn, Tried;
      var now := start;
      checks, instants := 0, [];
      ghost var before := log;
      TriedStart(before, limit, window, start, rounds);
      while true
        invariant Valid() && clock <= now && log == before && checks == |instants| <= |rounds|
        invariant Tried(before, limit, window, start, rounds, instants, now)
        decreases |rounds| - checks
      {
        Cleanup(now);
        RoomIsShort(log, limit, window, now, |requests|);
        TriedMeans(before, limit, window, start, rounds, instants, now);
        var gap := if checks < |rounds| then rounds[checks].gap else 0;
        ghost var tried := instants;
        checks, instants := checks + 1, instants + [now];
        if |requests| < limit {
          Admit(now + gap);
          return true, checks, instants;
        }
        var oldest := requests[0];
        var later := now + gap;
        var waitTime := window - (later - oldest);
        if checks > |rounds| {
          return false, checks, instants;
        }
        SleepUntilRoom(log, limit, window, now, gap, rounds[checks - 1].lag);
        TriedStep(before, limit, window, start, rounds, tried, now,
                  later + (if waitTime > 0 then waitTime else 0));
        now := later + (if waitTime > 0 then waitTime else 0) + rounds[checks - 1].lag;
      }
    }
  }

  /** The checks at `instants` found no room, nor was there any while the loop slept as planned, and
      a late timer would have found some; the next check is at `now`. */
  ghost predicate Tried(log: seq<int>, limit: nat, window: nat, start: int, rounds: seq<Round>,
                        instants: seq<int>, now: int) {
    && |instants| <= |rounds|
    && (instants + [now])[0] == start
    && forall k :: 0 <= k < |instants| ==>
         && !HasRoom(log, limit, window, instants[k])
         && NoRoom(log, limit, window, instants[k] + rounds[k].gap, (instants + [now])[k + 1] - rounds[k].lag)
         && (rounds[k].lag >= 1 ==> HasRoom(log, limit, window, (instants + [now])[k + 1]))
  }

  lemma TriedStart(log: seq<int>, limit: nat, window: nat, start: int, rounds: seq<Round>)
    ensures Tried(log, limit, window, start, rounds, [], start)
  {
  }

  lemma TriedStep(log: seq<int>, limit: nat, window: nat, start: int, rounds: seq<Round>,
                  instants: seq<int>, now: int, planned: int)
    requires Tried(log, limit, window, start, rounds, instants, now) && |instants| < |rounds|
    requires !HasRoom(log, limit, window, now)
    requires var r := rounds[|instants|];
      && NoRoom(log, limit, window, now + r.gap, planned)
      && (r.lag >= 1 ==> HasRoom(log, limit, window, planned + r.lag))
    ensures Tried(log, limit, window, start, rounds, instants + [now], planned + rounds[|instants|].lag)
  {
    hide HasRoom, NoRoom;
  }

  lemma TriedMeans(log: seq<int>, limit: nat, window: nat, start: int, rounds: seq<Round>,
                   instants: seq<int>, now: int)
    requires Tried(log, limit, window, start, rounds, instants, now)
    ensures (instants + [now])[0] == start
    ensures forall k :: 0 <= k < |instants| ==> !HasRoom(log, limit, window, instants[k])
    ensures HasRoom(log, limit, window, start) ==> instants == []
    ensures forall k :: 0 <= k < |instants| ==>
              NoRoom(log, limit, window, instants[k] + rounds[k].gap, (instants + [now])[k + 1] - rounds[k].lag)
    ensures forall k :: 0 <= k < |instants| && rounds[k].lag >= 1 ==>
              k + 1 == |instants| && HasRoom(log, limit, window, now)
  {
    hide HasRoom, NoRoom;
  }

  /** The sleep planned from a full window: no room while it lasts, and room if it lasts any longer. */
  lemma SleepUntilRoom(log: seq<int>, limit: nat, window: nat, now: int, gap: nat, lag: nat)
    requires limit >= 1 && Sorted(log) && UpTo(log, now) && |Recent(log, now - window)| == limit
    ensures var later := now + gap;
      var left := window - (later - Recent(log, now - window)[0]);
      var planned := later + (if left > 0 then left else 0);
      && NoRoom(log, limit, window, later, planned)
      && (lag >= 1 ==> HasRoom(log, limit, window, planned + lag))
  {
    var later := now + gap;
    var left := window - (later - Recent(log, now - window)[0]);
    var planned := later + (if left > 0 then left else 0);
    hide HasRoom, Recent;
    forall t | later < t <= planned
      ensures !HasRoom(log, limit, window, t)
    {
      RoomFrom(log, limit, window, now, t);
    }
    RoomFrom(log, limit, window, now, planned + lag);
  }

  lemma RoomIsShort(log: seq<int>, limit: nat, window: nat, now: int, kept: nat)
    requires kept == CountIn(log, now - window, now)
    ensures HasRoom(log, limit, window, now) <==> kept < limit
  {
  }

  /** A full sorted list loses an entry at a cutoff exactly when its oldest entry lies before it. */
  lemma TrimsOldestFirst(kept: seq<int>, cutoff: int)
    requires Sorted(kept) && kept != []
    ensures |Recent(kept, cutoff)| < |kept| <==> kept[0] < cutoff
  {
    if kept[0] < cutoff {
      RecentIsLogSuffix(kept[1..], cutoff);
    } else {
      RecentIsSuffix(kept, cutoff, 0);
    }
  }

  /** A window that is full at `now` has room at `t` exactly when its oldest entry is more than a
      window old by then. */
  lemma RoomFrom(log: seq<int>, limit: nat, window: nat, now: int, t: int)
    requires limit >= 1 && Sorted(log) && UpTo(log, now) && now <= t
    requires |Recent(log, now - window)| == limit
    ensures Recent(log, now - window)[0] + window < t <==> HasRoom(log, limit, window, t)
  {
    RecentTwice(log, now - window, t - window);
    RecentCounts(log, t - window, t);
    RecentSorted(log, now - window);
    TrimsOldestFirst(Recent(log, now - window), t - window);
  }

  lemma LimiterObeysLaw(sw: SlidingWindow)
    requires sw.Valid()
    ensures WindowLaw(sw.log, sw.limit, sw.window)
  {
    SpacingIsLaw(sw.log, sw.limit, sw.window);
  }
}
