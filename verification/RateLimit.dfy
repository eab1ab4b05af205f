/** The sliding-window rate limit. */
module RateLimit {
  import opened Ordered

  /** The times that still count at `now`. A time in the future counts. */
  function Recent(times: seq<nat>, now: nat, window: nat): (r: seq<nat>)
    ensures |r| <= |times|
  {
    if times == [] then []
    else if now - times[0] < window then [times[0]] + Recent(times[1..], now, window)
    else Recent(times[1..], now, window)
  }

  predicate Allowed(times: seq<nat>, now: nat, window: nat, capacity: nat) {
    |Recent(times, now, window)| < capacity
  }

  function AfterLimit(times: seq<nat>, now: nat, window: nat, capacity: nat): seq<nat> {
    if Allowed(times, now, window, capacity) then Recent(times, now, window) + [now] else Recent(times, now, window)
  }

  lemma KeepOne(kept: seq<nat>, rest: seq<nat>, now: nat, window: nat)
    requires rest != []
    ensures kept + Recent(rest, now, window)
         == (if now - rest[0] < window then kept + [rest[0]] else kept) + Recent(rest[1..], now, window)
  {
    assert kept + ([rest[0]] + Recent(rest[1..], now, window)) == (kept + [rest[0]]) + Recent(rest[1..], now, window);
  }

  /** The rate list, pruned and extended in place. */
  class Limiter {
    var times: seq<nat>

    constructor ()
      ensures times == []
    {
      times := [];
    }

    method Limit(now: nat, window: nat, capacity: nat) returns (ok: bool)
      modifies this
      ensures ok <==> Allowed(old(times), now, window, capacity)
      ensures times == AfterLimit(old(times), now, window, capacity)
    {
      var kept: seq<nat> := [];
      var i := 0;
      while i < |times|
        invariant 0 <= i <= |times| && times == old(times)
        invariant kept + Recent(times[i..], now, window) == Recent(times, now, window)
      {
        KeepOne(kept, times[i..], now, window);
        assert times[i..][1..] == times[i + 1..];
        if now - times[i] < window {
          kept := kept + [times[i]];
        }
        i := i + 1;
      }
      times := kept;
      if |times| >= capacity {
        return false;
      }
      times := times + [now];
      ok := true;
    }
  }

  // ----- whole runs, under any clock -----

  /** A request that was let through at some clock reading, and the latest reading at any later request,
      zero if there was none. The clock may go back between requests. */
  datatype Admitted = Admitted(at: nat, latest: nat)

  /** The rate list, and everything that was let through. */
  datatype State = State(times: seq<nat>, log: seq<Admitted>)

  const START := State([], [])

  function Heard(log: seq<Admitted>, now: nat): (heard: seq<Admitted>)
    ensures |heard| == |log|
    ensures forall i :: 0 <= i < |log| ==> heard[i] == Admitted(log[i].at, Max(log[i].latest, now))
  {
    seq(|log|, i requires 0 <= i < |log| => Admitted(log[i].at, Max(log[i].latest, now)))
  }

  function Step(s: State, now: nat, window: nat, capacity: nat): State {
    State(AfterLimit(s.times, now, window, capacity),
          Heard(s.log, now) + if Allowed(s.times, now, window, capacity) then [Admitted(now, 0)] else [])
  }

  function Run(s: State, requests: seq<nat>, window: nat, capacity: nat): State
    decreases |requests|
  {
    if requests == [] then s else Run(Step(s, requests[0], window, capacity), requests[1..], window, capacity)
  }

  /** How many let-through requests lie within the window at `now`. */
  function Within(log: seq<Admitted>, now: nat, window: nat): nat {
    if log == [] then 0
    else
      var last := log[|log| - 1];
      Within(log[..|log| - 1], now, window) + if now - last.at < window then 1 else 0
  }

  /** How many of these an earlier, later-running clock reading had already put out of the window. */
  function Forgotten(log: seq<Admitted>, now: nat, window: nat): nat {
    if log == [] then 0
    else
      var last := log[|log| - 1];
      Forgotten(log[..|log| - 1], now, window) + if now - last.at < window && last.latest - last.at >= window then 1 else 0
  }

  /** The let-through requests that no reading, `now` included, has put out of the window. */
  function Listed(log: seq<Admitted>, now: nat, window: nat): seq<nat> {
    if log == [] then []
    else
      var last := log[|log| - 1];
      Listed(log[..|log| - 1], now, window) + if Max(last.latest, now) - last.at < window then [last.at] else []
  }

  lemma {:induction false} ListedCount(log: seq<Admitted>, now: nat, window: nat)
    ensures |Listed(log, now, window)| + Forgotten(log, now, window) == Within(log, now, window)
  {
    if log != [] {
      ListedCount(log[..|log| - 1], now, window);
    }
  }

  lemma {:induction false} RecentAppend(times: seq<nat>, more: nat, now: nat, window: nat)
    ensures Recent(times + [more], now, window) == Recent(times, now, window) + if now - more < window then [more] else []
  {
    if times == [] {
      assert [more][1..] == [];
    } else {
      assert (times + [more])[1..] == times[1..] + [more];
      RecentAppend(times[1..], more, now, window);
    }
  }

  /** Pruning at one reading and then at another. */
  lemma {:induction false} ListedAgain(log: seq<Admitted>, now: nat, later: nat, window: nat)
    ensures Recent(Listed(log, now, window), later, window) == Listed(Heard(log, now), later, window)
  {
    if log != [] {
      var front, last := log[..|log| - 1], log[|log| - 1];
      ListedAgain(front, now, later, window);
      assert Heard(log, now)[..|log| - 1] == Heard(front, now);
      var again := Max(Max(last.latest, now), later);
      assert Listed(Heard(log, now), later, window)
          == Listed(Heard(front, now), later, window) + if again - last.at < window then [last.at] else [];
      if Max(last.latest, now) - last.at < window {
        RecentAppend(Listed(front, now, window), last.at, later, window);
      } else {
        assert Listed(log, now, window) == Listed(front, now, window) + [] == Listed(front, now, window);
      }
    }
  }

  /** At every reading, pruning the list leaves what no reading has put out of the window. */
  ghost predicate Exact(s: State, window: nat) {
    forall now: nat :: Recent(s.times, now, window) == Listed(s.log, now, window)
  }

  lemma StepExact(s: State, now: nat, window: nat, capacity: nat)
    requires Exact(s, window)
    ensures Exact(Step(s, now, window, capacity), window)
  {
    var after := Step(s, now, window, capacity);
    forall later: nat ensures Recent(after.times, later, window) == Listed(after.log, later, window) {
      ListedAgain(s.log, now, later, window);
      if Allowed(s.times, now, window, capacity) {
        RecentAppend(Recent(s.times, now, window), now, later, window);
        assert after.log[..|after.log| - 1] == Heard(s.log, now);
      } else {
        assert after.log == Heard(s.log, now);
      }
    }
  }

  lemma {:induction false} RunExact(s: State, requests: seq<nat>, window: nat, capacity: nat)
    requires Exact(s, window)
    ensures Exact(Run(s, requests, window, capacity), window)
    decreases |requests|
  {
    if requests != [] {
      StepExact(s, requests[0], window, capacity);
      RunExact(Step(s, requests[0], window, capacity), requests[1..], window, capacity);
    }
  }

  /** The limit judges the next request rightly: it lets it through if and only if fewer than `capacity`
      let-through requests lie within the window. */
  predicate Right(s: State, now: nat, window: nat, capacity: nat) {
    Allowed(s.times, now, window, capacity) <==> Within(s.log, now, window) < capacity
  }

  /** After any requests under any clock: the next one is refused only rightly, and it is let through
      wrongly exactly when forgotten requests make the difference. */
  lemma JudgedExactly(requests: seq<nat>, now: nat, window: nat, capacity: nat)
    ensures var s := Run(START, requests, window, capacity);
            var within, forgotten := Within(s.log, now, window), Forgotten(s.log, now, window);
            && (Allowed(s.times, now, window, capacity) <==> within - forgotten < capacity)
            && (Right(s, now, window, capacity) <==> !(within - forgotten < capacity <= within))
  {
    assert Exact(START, window);
    RunExact(START, requests, window, capacity);
    ListedCount(Run(START, requests, window, capacity).log, now, window);
  }

  // ----- clocks that do not go back -----

  /** The clock has never been read later than `now`. */
  predicate Heeded(log: seq<Admitted>, now: nat) {
    forall i :: 0 <= i < |log| ==> log[i].latest <= now && log[i].at <= now
  }

  lemma {:induction false} NothingForgotten(log: seq<Admitted>, now: nat, window: nat)
    requires Heeded(log, now)
    ensures Forgotten(log, now, window) == 0
  {
    if log != [] {
      NothingForgotten(log[..|log| - 1], now, window);
    }
  }

  lemma {:induction false} RunHeeded(s: State, requests: seq<nat>, now: nat, window: nat, capacity: nat)
    requires Heeded(s.log, now) && forall i :: 0 <= i < |requests| ==> requests[i] <= now
    ensures Heeded(Run(s, requests, window, capacity).log, now)
    decreases |requests|
  {
    if requests != [] {
      RunHeeded(Step(s, requests[0], window, capacity), requests[1..], now, window, capacity);
    }
  }

  /** A request whose clock reading is the latest so far is judged rightly, wherever the clock went before. */
  lemma LatestReadingIsRight(requests: seq<nat>, now: nat, window: nat, capacity: nat)
    requires forall i :: 0 <= i < |requests| ==> requests[i] <= now
    ensures Right(Run(START, requests, window, capacity), now, window, capacity)
  {
    JudgedExactly(requests, now, window, capacity);
    RunHeeded(START, requests, now, window, capacity);
    NothingForgotten(Run(START, requests, window, capacity).log, now, window);
  }

  predicate Ascending(s: seq<nat>) {
    forall i, j :: 0 <= i <= j < |s| ==> s[i] <= s[j]
  }

  /** No `capacity + 1` let-through requests lie within one window. */
  predicate Spaced(log: seq<Admitted>, window: nat, capacity: nat) {
    forall i :: 0 <= i && i + capacity < |log| ==> log[i + capacity].at - log[i].at >= window
  }

  predicate InOrder(log: seq<Admitted>) {
    forall i, j :: 0 <= i <= j < |log| ==> log[i].at <= log[j].at
  }

  lemma {:induction false} WithinAtLeast(log: seq<Admitted>, now: nat, window: nat, n: nat)
    requires n <= |log| && forall i :: |log| - n <= i < |log| ==> now - log[i].at < window
    ensures Within(log, now, window) >= n
  {
    if n > 0 {
      WithinAtLeast(log[..|log| - 1], now, window, n - 1);
    }
  }

  lemma StepSpaced(s: State, now: nat, window: nat, capacity: nat)
    requires Exact(s, window) && Heeded(s.log, now) && InOrder(s.log) && Spaced(s.log, window, capacity)
    ensures Heeded(Step(s, now, window, capacity).log, now) && InOrder(Step(s, now, window, capacity).log)
    ensures Spaced(Step(s, now, window, capacity).log, window, capacity)
  {
    var after := Step(s, now, window, capacity).log;
    var first := |s.log| - capacity;
    if Allowed(s.times, now, window, capacity) && first >= 0 {
      ListedCount(s.log, now, window);
      NothingForgotten(s.log, now, window);
      if capacity > 0 && now - s.log[first].at < window {
        WithinAtLeast(s.log, now, window, capacity);
      }
    }
  }

  lemma {:induction false} RunSpaced(s: State, before: nat, requests: seq<nat>, window: nat, capacity: nat)
    requires Exact(s, window) && Heeded(s.log, before) && InOrder(s.log) && Spaced(s.log, window, capacity)
    requires Ascending(requests) && (requests != [] ==> before <= requests[0])
    ensures Spaced(Run(s, requests, window, capacity).log, window, capacity)
    decreases |requests|
  {
    if requests != [] {
      StepExact(s, requests[0], window, capacity);
      StepSpaced(s, requests[0], window, capacity);
      RunSpaced(Step(s, requests[0], window, capacity), requests[0], requests[1..], window, capacity);
    }
  }

  /** Under a clock that does not go back, no window ever holds more than `capacity` let-through requests. */
  lemma NeverTooMany(requests: seq<nat>, window: nat, capacity: nat)
    requires Ascending(requests)
    ensures Spaced(Run(START, requests, window, capacity).log, window, capacity)
  {
    assert Exact(START, window);
    RunSpaced(START, 0, requests, window, capacity);
  }

  // ----- for which capacities the clock does not matter -----

  /** Every request of every run is judged rightly. */
  ghost predicate AlwaysRight(window: nat, capacity: nat) {
    forall requests: seq<nat>, now: nat :: Right(Run(START, requests, window, capacity), now, window, capacity)
  }

  /** With room for one, the list is the last request let through, and times do not go back. */
  ghost predicate Single(s: State) {
    && InOrder(s.log) && s.times == if s.log == [] then [] else [s.log[|s.log| - 1].at]
  }

  lemma {:induction false} NoneWithin(log: seq<Admitted>, now: nat, window: nat)
    requires forall i :: 0 <= i < |log| ==> now - log[i].at >= window
    ensures Within(log, now, window) == 0
  {
    if log != [] {
      NoneWithin(log[..|log| - 1], now, window);
    }
  }

  lemma RecentSingle(at: nat, now: nat, window: nat)
    ensures Recent([at], now, window) == if now - at < window then [at] else []
  {
    RecentAppend([], at, now, window);
    assert [] + [at] == [at];
  }

  lemma SingleRight(s: State, now: nat, window: nat)
    requires Single(s)
    ensures Right(s, now, window, 1) && Single(Step(s, now, window, 1))
  {
    if s.log != [] {
      var last := s.log[|s.log| - 1].at;
      RecentSingle(last, now, window);
      if now - last >= window {
        NoneWithin(s.log, now, window);
      }
    }
  }

  lemma {:induction false} RunSingle(s: State, requests: seq<nat>, window: nat)
    requires Single(s)
    ensures Single(Run(s, requests, window, 1))
    decreases |requests|
  {
    if requests != [] {
      SingleRight(s, requests[0], window);
      RunSingle(Step(s, requests[0], window, 1), requests[1..], window);
    }
  }

  /** `n` requests at reading 1. */
  function Burst(n: nat): seq<nat> {
    seq(n, _ => 1)
  }

  lemma {:induction false} RunOneMore(s: State, requests: seq<nat>, next: nat, window: nat, capacity: nat)
    ensures Run(s, requests + [next], window, capacity) == Step(Run(s, requests, window, capacity), next, window, capacity)
    decreases |requests|
  {
    if requests == [] {
      assert [next][1..] == [];
      assert [] + [next] == [next];
    } else {
      assert (requests + [next])[1..] == requests[1..] + [next];
      RunOneMore(Step(s, requests[0], window, capacity), requests[1..], next, window, capacity);
    }
  }

  /** A burst that fits is let through. */
  lemma {:induction false} BurstFits(n: nat, window: nat, capacity: nat)
    requires n <= capacity
    ensures var s := Run(START, Burst(n), window, capacity);
            && |s.log| == n && |s.times| <= n && (forall i :: 0 <= i < n ==> s.log[i].at == 1)
            && (forall i :: 0 <= i < |s.times| ==> s.times[i] == 1)
  {
    if n > 0 {
      BurstFits(n - 1, window, capacity);
      assert Burst(n) == Burst(n - 1) + [1];
      RunOneMore(START, Burst(n - 1), 1, window, capacity);
      RecentOnes(Run(START, Burst(n - 1), window, capacity).times, 1, window);
    }
  }

  lemma {:induction false} RecentOnes(times: seq<nat>, now: nat, window: nat)
    requires forall i :: 0 <= i < |times| ==> times[i] == 1
    ensures forall i :: 0 <= i < |Recent(times, now, window)| ==> Recent(times, now, window)[i] == 1
    ensures now - 1 >= window ==> Recent(times, now, window) == []
  {
    if times != [] {
      RecentOnes(times[1..], now, window);
    }
  }

  /** A clock that goes back lets too many through, for every window and every capacity above one: a full
      burst, one request when the window has passed, and the clock back at zero. */
  lemma ClockSetBack(window: nat, capacity: nat)
    requires capacity > 1
    ensures var requests := Burst(capacity) + [1 + window];
            var s := Run(START, requests, window, capacity);
            && Allowed(s.times, 0, window, capacity) && Within(s.log, 0, window) == capacity + 1
            && !Right(s, 0, window, capacity)
  {
    var burst := Run(START, Burst(capacity), window, capacity);
    BurstFits(capacity, window, capacity);
    RunOneMore(START, Burst(capacity), 1 + window, window, capacity);
    RecentOnes(burst.times, 1 + window, window);
    var s := Step(burst, 1 + window, window, capacity);
    assert s.times == [1 + window];
    RecentSingle(1 + window, 0, window);
    WithinAtLeast(s.log, 0, window, capacity + 1);
    AtMostAll(s.log, 0, window);
  }

  lemma {:induction false} AtMostAll(log: seq<Admitted>, now: nat, window: nat)
    ensures Within(log, now, window) <= |log|
  {
    if log != [] {
      AtMostAll(log[..|log| - 1], now, window);
    }
  }

  /** Whatever the clock does, every request is judged rightly exactly when the capacity is at most one.
      The capacities in use are five and twenty. */
  lemma ClockMatters(window: nat, capacity: nat)
    ensures AlwaysRight(window, capacity) <==> capacity <= 1
  {
    if capacity > 1 {
      ClockSetBack(window, capacity);
    } else {
      forall requests: seq<nat>, now: nat ensures Right(Run(START, requests, window, capacity), now, window, capacity) {
        if capacity == 1 {
          RunSingle(START, requests, window);
          SingleRight(Run(START, requests, window, 1), now, window);
        }
      }
    }
  }
}
