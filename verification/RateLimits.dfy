/** Two rate limiters that compress history, a token bucket and a sliding window, against the history itself. */
module RateLimits {
  /** How many of the times lie in [s, e]. */
  function Within(times: seq<real>, s: real, e: real): nat {
    if times == [] then 0
    else Within(times[..|times| - 1], s, e) + (if s <= times[|times| - 1] <= e then 1 else 0)
  }

  /** How many of the times are later than x. */
  function Later(times: seq<real>, x: real): nat {
    if times == [] then 0 else Later(times[..|times| - 1], x) + (if times[|times| - 1] > x then 1 else 0)
  }

  lemma {:induction false} WithinCounts(times: seq<real>, s: real, e: real)
    ensures Within(times, s, e) == |set i | 0 <= i < |times| && s <= times[i] <= e|
    decreases |times|
  {
    if times != [] {
      var n := |times| - 1;
      WithinCounts(times[..n], s, e);
      var before := set i | 0 <= i < |times[..n]| && s <= times[..n][i] <= e;
      assert (set i | 0 <= i < |times| && s <= times[i] <= e) == before + (if s <= times[n] <= e then {n} else {});
    }
  }

  lemma {:induction false} LaterCounts(times: seq<real>, x: real)
    ensures Later(times, x) == |set i | 0 <= i < |times| && times[i] > x|
    decreases |times|
  {
    if times != [] {
      var n := |times| - 1;
      LaterCounts(times[..n], x);
      var before := set i | 0 <= i < |times[..n]| && times[..n][i] > x;
      assert (set i | 0 <= i < |times| && times[i] > x) == before + (if times[n] > x then {n} else {});
    }
  }

  lemma WithinAppend(times: seq<real>, t: real, s: real, e: real)
    ensures Within(times + [t], s, e) == Within(times, s, e) + (if s <= t <= e then 1 else 0)
  {
    assert (times + [t])[..|times|] == times;
  }
}

/** The gateway's anonymous budget: a token bucket with an in-flight bound. */
module TokenBucket {
  import opened Basics
  import opened RateLimits

  datatype Limits = Limits(maxInFlight: nat, rate: nat, burst: nat) {
    predicate Valid() {
      1 <= maxInFlight <= 64 && 1 <= rate <= 100 && 1 <= burst <= 200
    }
  }

  datatype State = State(tokens: real, updated: real, inFlight: nat)

  datatype Answer = Admitted | CapacityExhausted | RateLimited | Released | ReleaseRefused

  datatype Event = Acquire(clock: real) | Release

  /** The effective time of a call never goes back, whatever the raw clock does. */
  function EffectiveNow(s: State, clock: real): real {
    if s.updated < clock then clock else s.updated
  }

  /** The number of tokens that accrue between two times. */
  function Accrual(l: Limits, s: real, e: real): real {
    (e - s) * l.rate as real
  }

  lemma AccrualAdds(l: Limits, a: real, b: real, c: real)
    requires a <= b <= c
    ensures Accrual(l, a, c) == Accrual(l, a, b) + Accrual(l, b, c)
    ensures Accrual(l, a, b) >= 0.0 && Accrual(l, b, c) >= 0.0 && Accrual(l, a, a) == 0.0
  {
  }

  function Refilled(l: Limits, s: State, now: real): real {
    MinReal(l.burst as real, s.tokens + Accrual(l, s.updated, now))
  }

  function Step(l: Limits, s: State, e: Event): (State, Answer) {
    match e
    case Acquire(clock) =>
      var now := EffectiveNow(s, clock);
      var tokens := Refilled(l, s, now);
      if s.inFlight >= l.maxInFlight then (State(tokens, now, s.inFlight), CapacityExhausted)
      else if tokens < 1.0 then (State(tokens, now, s.inFlight), RateLimited)
      else (State(tokens - 1.0, now, s.inFlight + 1), Admitted)
    case Release =>
      if s.inFlight <= 0 then (s, ReleaseRefused) else (s.(inFlight := s.inFlight - 1), Released)
  }

  class RequestAdmission {
    const limits: Limits
    var tokens: real
    var updated: real
    var inFlight: nat

    constructor (limits: Limits, clock: real)
      ensures this.limits == limits && View() == Initial(limits, clock)
    {
      this.limits, this.tokens, this.updated, this.inFlight := limits, limits.burst as real, clock, 0;
    }

    function View(): State
      reads this
    {
      State(tokens, updated, inFlight)
    }

    method Acquire(clock: real) returns (answer: Answer)
      modifies this
      ensures (View(), answer) == Step(limits, old(View()), Event.Acquire(clock))
    {
      var now := updated;
      if clock > now {
        now := clock;
      }
      tokens := tokens + Accrual(limits, updated, now);
      if tokens > limits.burst as real {
        tokens := limits.burst as real;
      }
      updated := now;
      if inFlight >= limits.maxInFlight {
        return CapacityExhausted;
      }
      if tokens < 1.0 {
        return RateLimited;
      }
      tokens := tokens - 1.0;
      inFlight := inFlight + 1;
      return Admitted;
    }

    method Release() returns (answer: Answer)
      modifies this
      ensures (View(), answer) == Step(limits, old(View()), Event.Release)
    {
      if inFlight <= 0 {
        return ReleaseRefused;
      }
      inFlight := inFlight - 1;
      return Released;
    }
  }

  // ----- runs -----

  function Initial(l: Limits, start: real): State {
    State(l.burst as real, start, 0)
  }

  /** The state after some events, with the effective times of the admissions among them. */
  datatype Trace = Trace(state: State, admissions: seq<real>, releases: nat)

  function Run(l: Limits, start: real, events: seq<Event>): Trace {
    if events == [] then Trace(Initial(l, start), [], 0)
    else
      var before := Run(l, start, events[..|events| - 1]);
      var (after, answer) := Step(l, before.state, events[|events| - 1]);
      Trace(after, if answer == Admitted then before.admissions + [after.updated] else before.admissions,
            before.releases + if answer == Released then 1 else 0)
  }

  /** Conservation: what is in flight was admitted and not yet released, and stays within its maximum. */
  lemma {:induction false} InFlightIsAccounted(l: Limits, start: real, events: seq<Event>)
    requires l.Valid()
    ensures var t := Run(l, start, events);
            && t.state.inFlight == |t.admissions| - t.releases && t.state.inFlight <= l.maxInFlight
            && 0.0 <= t.state.tokens <= l.burst as real
    decreases |events|
  {
    if events != [] {
      InFlightIsAccounted(l, start, events[..|events| - 1]);
      var before := Run(l, start, events[..|events| - 1]).state;
      if events[|events| - 1].Acquire? {
        RefillIsNotNegative(l, before, EffectiveNow(before, events[|events| - 1].clock));
      }
    }
  }

  lemma RefillIsNotNegative(l: Limits, s: State, now: real)
    requires l.Valid() && s.updated <= now && 0.0 <= s.tokens
    ensures 0.0 <= Refilled(l, s, now) <= l.burst as real
  {
    AccrualAdds(l, s.updated, now, now);
  }

  /** What the tokens left say about a window that starts at s. */
  ghost predicate WindowBound(l: Limits, t: Trace, s: real, e: real) {
    var admitted := Within(t.admissions, s, e) as real;
    if t.state.updated < s then admitted == 0.0
    else if t.state.updated <= e then admitted + t.state.tokens <= l.burst as real + Accrual(l, s, t.state.updated)
    else admitted <= l.burst as real + Accrual(l, s, e)
  }

  /** An admission attempt at an effective time, for a window that is open, opening or over. */
  lemma WindowBoundAcquire(l: Limits, t: Trace, now: real, admitted: bool, from: real, to: real)
    requires l.Valid() && from <= to && t.state.updated <= now && WindowBound(l, t, from, to) && 0.0 <= t.state.tokens
    ensures var tokens := Refilled(l, t.state, now) - (if admitted then 1.0 else 0.0);
            WindowBound(l, Trace(State(tokens, now, 0), if admitted then t.admissions + [now] else t.admissions, 0), from, to)
  {
    WithinAppend(t.admissions, now, from, to);
    RefillIsNotNegative(l, t.state, now);
    if t.state.updated < from <= now {
      AccrualAdds(l, from, now, now);
      AccrualAdds(l, from, to, to);
    } else if from <= t.state.updated && now <= to {
      AccrualAdds(l, from, t.state.updated, now);
    } else if from <= t.state.updated <= to {
      AccrualAdds(l, from, t.state.updated, to);
    }
  }

  lemma {:induction false} WindowBoundHolds(l: Limits, start: real, events: seq<Event>, from: real, to: real)
    requires l.Valid() && from <= to
    ensures WindowBound(l, Run(l, start, events), from, to)
    decreases |events|
  {
    if events == [] {
      if from <= start <= to {
        AccrualAdds(l, from, start, start);
      } else if to < start {
        AccrualAdds(l, from, to, to);
      }
    } else {
      var n := |events| - 1;
      var before := Run(l, start, events[..n]);
      WindowBoundHolds(l, start, events[..n], from, to);
      InFlightIsAccounted(l, start, events[..n]);
      if events[n].Acquire? {
        WindowBoundAcquire(l, before, EffectiveNow(before.state, events[n].clock),
                           Step(l, before.state, events[n]).1 == Admitted, from, to);
      }
    }
  }

  lemma AdmissionsAreWithinAccrual(l: Limits, start: real, events: seq<Event>, from: real, to: real)
    requires l.Valid() && from <= to
    ensures Within(Run(l, start, events).admissions, from, to) as real <= l.burst as real + Accrual(l, from, to)
  {
    WindowBoundHolds(l, start, events, from, to);
    InFlightIsAccounted(l, start, events);
    var t := Run(l, start, events).state;
    if from <= t.updated <= to {
      AccrualAdds(l, from, t.updated, to);
    } else {
      AccrualAdds(l, from, to, to);
    }
  }

  lemma AccrualIs(l: Limits, s: real, e: real)
    ensures Accrual(l, s, e) == (e - s) * l.rate as real
  {
  }

  /** In every run, under every raw clock, a window of any length admits at most the burst plus the rate for its length. */
  lemma AdmissionsAreBounded(l: Limits, start: real, events: seq<Event>, from: real, to: real)
    requires l.Valid() && from <= to
    ensures Within(Run(l, start, events).admissions, from, to) as real <= l.burst as real + (to - from) * l.rate as real
  {
    AdmissionsAreWithinAccrual(l, start, events, from, to);
    AccrualIs(l, from, to);
  }

  // ----- exactness -----

  /** One more admission now would keep every window that ends now within its bound. */
  ghost predicate RoomInEveryWindow(l: Limits, admissions: seq<real>, now: real) {
    forall s: real :: s <= now ==> Within(admissions, s, now) as real + 1.0 <= l.burst as real + (now - s) * l.rate as real
  }

  predicate NoneLater(times: seq<real>, now: real) {
    forall i :: 0 <= i < |times| ==> times[i] <= now
  }

  lemma {:induction false} AdmissionsAreNotLater(l: Limits, start: real, events: seq<Event>)
    ensures NoneLater(Run(l, start, events).admissions, Run(l, start, events).state.updated)
    decreases |events|
  {
    if events != [] {
      var n := |events| - 1;
      AdmissionsAreNotLater(l, start, events[..n]);
      assert Run(l, start, events[..n]).state.updated <= Run(l, start, events).state.updated;
    }
  }

  lemma {:induction false} WithinGrowsToNow(times: seq<real>, s: real, e: real, now: real)
    requires e <= now && NoneLater(times, e)
    ensures Within(times, s, now) == Within(times, s, e)
    decreases |times|
  {
    if times != [] {
      WithinGrowsToNow(times[..|times| - 1], s, e, now);
    }
  }

  /** Since time s, the bucket gained all that accrued and lost one for each admission. */
  ghost predicate FullAt(l: Limits, t: Trace, s: real) {
    && s <= t.state.updated
    && t.state.tokens >= l.burst as real + Accrual(l, s, t.state.updated) - Within(t.admissions, s, t.state.updated) as real
  }

  lemma FullAtAcquire(l: Limits, t: Trace, now: real, admitted: bool, s: real)
    requires l.Valid() && FullAt(l, t, s) && t.state.updated <= now
    requires NoneLater(t.admissions, t.state.updated)
    ensures var tokens := Refilled(l, t.state, now) - (if admitted then 1.0 else 0.0);
            var after := Trace(State(tokens, now, 0), if admitted then t.admissions + [now] else t.admissions, 0);
            FullAt(l, after, if Refilled(l, t.state, now) == l.burst as real then now else s)
  {
    WithinGrowsToNow(t.admissions, s, t.state.updated, now);
    AccrualAdds(l, s, t.state.updated, now);
    AccrualAdds(l, now, now, now);
    WithinAppend(t.admissions, now, s, now);
    WithinAppend(t.admissions, now, now, now);
  }

  /** There is such a time in every run: when the bucket was last full. */
  lemma {:induction false} LastFull(l: Limits, start: real, events: seq<Event>) returns (s: real)
    requires l.Valid()
    ensures FullAt(l, Run(l, start, events), s)
    decreases |events|
  {
    s := start;
    if events == [] {
      AccrualAdds(l, start, start, start);
    } else {
      var n := |events| - 1;
      var before := Run(l, start, events[..n]);
      s := LastFull(l, start, events[..n]);
      AdmissionsAreNotLater(l, start, events[..n]);
      if events[n].Acquire? {
        var now := EffectiveNow(before.state, events[n].clock);
        FullAtAcquire(l, before, now, Step(l, before.state, events[n]).1 == Admitted, s);
        if Refilled(l, before.state, now) == l.burst as real {
          s := now;
        }
      }
    }
  }

  /** A full-at time and too few tokens give a window that one more admission would overfill. */
  lemma OverfullWindow(l: Limits, t: Trace, now: real, s: real)
    requires l.Valid() && FullAt(l, t, s) && t.state.updated <= now && Refilled(l, t.state, now) < 1.0
    requires NoneLater(t.admissions, t.state.updated)
    ensures s <= now && Within(t.admissions, s, now) as real + 1.0 > l.burst as real + Accrual(l, s, now)
  {
    WithinGrowsToNow(t.admissions, s, t.state.updated, now);
    AccrualAdds(l, s, t.state.updated, now);
  }

  /**
   * With room in flight a call is refused exactly when admitting it would overfill some window: the bucket
   * is the most permissive limiter that keeps the bound, although it remembers only one number.
   */
  lemma AdmitsExactlyWhenEveryWindowHasRoom(l: Limits, start: real, events: seq<Event>, clock: real)
    requires l.Valid() && Run(l, start, events).state.inFlight < l.maxInFlight
    ensures var t := Run(l, start, events);
            Step(l, t.state, Acquire(clock)).1 == Admitted
            <==> RoomInEveryWindow(l, t.admissions, EffectiveNow(t.state, clock))
  {
    var t := Run(l, start, events);
    var now := EffectiveNow(t.state, clock);
    if Step(l, t.state, Acquire(clock)).1 == Admitted {
      AdmittedLeavesRoom(l, start, events, clock);
    } else {
      var s := LastFull(l, start, events);
      AdmissionsAreNotLater(l, start, events);
      OverfullWindow(l, t, now, s);
    }
  }

  /** No window that ends now is over its bound. */
  ghost predicate WithinBounds(l: Limits, admissions: seq<real>, now: real) {
    forall s: real :: s <= now ==> Within(admissions, s, now) as real <= l.burst as real + (now - s) * l.rate as real
  }

  lemma RunIsWithinBounds(l: Limits, start: real, events: seq<Event>, now: real)
    requires l.Valid()
    ensures WithinBounds(l, Run(l, start, events).admissions, now)
  {
    forall s: real | s <= now
      ensures Within(Run(l, start, events).admissions, s, now) as real <= l.burst as real + (now - s) * l.rate as real
    {
      AdmissionsAreBounded(l, start, events, s, now);
    }
  }

  lemma BoundsLeaveRoom(l: Limits, admissions: seq<real>, now: real)
    requires WithinBounds(l, admissions + [now], now)
    ensures RoomInEveryWindow(l, admissions, now)
  {
    forall s: real | s <= now ensures Within(admissions, s, now) as real + 1.0 <= l.burst as real + (now - s) * l.rate as real {
      WithinAppend(admissions, now, s, now);
    }
  }

  lemma AdmittedLeavesRoom(l: Limits, start: real, events: seq<Event>, clock: real)
    requires l.Valid() && Step(l, Run(l, start, events).state, Acquire(clock)).1 == Admitted
    ensures var t := Run(l, start, events); RoomInEveryWindow(l, t.admissions, EffectiveNow(t.state, clock))
  {
    var t := Run(l, start, events);
    var now := EffectiveNow(t.state, clock);
    var grown := events + [Acquire(clock)];
    assert grown[..|events|] == events;
    assert Run(l, start, grown).admissions == t.admissions + [now];
    RunIsWithinBounds(l, start, grown, now);
    BoundsLeaveRoom(l, t.admissions, now);
  }

  /** A caller that waits one over the rate since the previous call, with room in flight, is admitted. */
  lemma PatientCallerIsAdmitted(l: Limits, start: real, events: seq<Event>, clock: real)
    requires l.Valid() && Run(l, start, events).state.inFlight < l.maxInFlight
    requires clock - Run(l, start, events).state.updated >= 1.0 / l.rate as real
    ensures Step(l, Run(l, start, events).state, Acquire(clock)).1 == Admitted
  {
    var updated := Run(l, start, events).state.updated;
    InFlightIsAccounted(l, start, events);
    WaitAccruesOne(l, updated, clock);
  }

  // ----- every answer -----

  /** The effective time is the latest reading so far, the first one included. */
  lemma {:induction false} EffectiveTimeIsTheLatest(l: Limits, start: real, events: seq<Event>)
    ensures var latest := Run(l, start, events).state.updated;
            && start <= latest && (forall i :: 0 <= i < |events| && events[i].Acquire? ==> events[i].clock <= latest)
            && (latest == start || exists i :: 0 <= i < |events| && events[i] == Acquire(latest))
    decreases |events|
  {
    if events != [] {
      var n := |events| - 1;
      EffectiveTimeIsTheLatest(l, start, events[..n]);
      var before := Run(l, start, events[..n]).state.updated;
      assert forall i :: 0 <= i < n ==> events[..n][i] == events[i];
      if Run(l, start, events).state.updated != before {
        assert events[n] == Acquire(Run(l, start, events).state.updated);
      }
    }
  }

  /**
   * A call is turned down for capacity exactly when as many are in flight as may be, and for its rate exactly when not
   * and some window has no room; a release is refused exactly when nothing is in flight.
   */
  lemma AnsweredExactlyWhen(l: Limits, start: real, events: seq<Event>, clock: real)
    requires l.Valid()
    ensures var t := Run(l, start, events);
            var inFlight := |t.admissions| - t.releases;
            var answer := Step(l, t.state, Acquire(clock)).1;
            var room := RoomInEveryWindow(l, t.admissions, if t.state.updated < clock then clock else t.state.updated);
            && (answer == CapacityExhausted <==> inFlight >= l.maxInFlight)
            && (answer == RateLimited <==> inFlight < l.maxInFlight && !room)
            && (answer == Admitted <==> inFlight < l.maxInFlight && room)
            && (Step(l, t.state, Release).1 == ReleaseRefused <==> inFlight == 0)
            && (Step(l, t.state, Release).1 == Released <==> inFlight > 0)
  {
    InFlightIsAccounted(l, start, events);
    if Run(l, start, events).state.inFlight < l.maxInFlight {
      AdmitsExactlyWhenEveryWindowHasRoom(l, start, events, clock);
    }
  }

  lemma WaitAccruesOne(l: Limits, s: real, e: real)
    requires l.Valid() && e - s >= 1.0 / l.rate as real
    ensures s <= e && Accrual(l, s, e) >= 1.0
  {
    var rate := l.rate as real;
    assert 1.0 / rate * rate == 1.0;
    assert (e - s) * rate >= 1.0 / rate * rate;
  }
}

/** The agent host's sliding window: at most N admissions a minute, old entries discarded. */
module SlidingWindow {
  import opened RateLimits

  const WINDOW := 60.0

  /** Discards the leading entries that are not later than x. */
  function Pop(queue: seq<real>, x: real): seq<real> {
    if queue != [] && queue[0] <= x then Pop(queue[1..], x) else queue
  }

  function Step(queue: seq<real>, limit: nat, now: real): (seq<real>, bool) {
    var live := Pop(queue, now - WINDOW);
    if |live| >= limit then (live, false) else (live + [now], true)
  }

  class Boundary {
    const requestsPerMinute: nat
    var admitted: seq<real>

    constructor (requestsPerMinute: nat)
      requires 1 <= requestsPerMinute <= 600
      ensures this.requestsPerMinute == requestsPerMinute && admitted == []
    {
      this.requestsPerMinute, this.admitted := requestsPerMinute, [];
    }

    method Admit(now: real) returns (ok: bool)
      modifies this
      ensures (admitted, ok) == Step(old(admitted), requestsPerMinute, now)
    {
      while admitted != [] && admitted[0] <= now - WINDOW
        invariant Pop(admitted, now - WINDOW) == Pop(old(admitted), now - WINDOW)
        decreases |admitted|
      {
        admitted := admitted[1..];
      }
      if |admitted| >= requestsPerMinute {
        return false;
      }
      admitted := admitted + [now];
      return true;
    }
  }

  /** The queue after a run of clock readings, with every admission it ever made. */
  datatype Trace = Trace(queue: seq<real>, history: seq<real>)

  function Run(limit: nat, clocks: seq<real>): Trace {
    if clocks == [] then Trace([], [])
    else
      var before := Run(limit, clocks[..|clocks| - 1]);
      var now := clocks[|clocks| - 1];
      var (queue, ok) := Step(before.queue, limit, now);
      Trace(queue, if ok then before.history + [now] else before.history)
  }

  predicate Nondecreasing(times: seq<real>) {
    forall i, j :: 0 <= i <= j < |times| ==> times[i] <= times[j]
  }

  lemma {:induction false} PopTwice(queue: seq<real>, x: real, y: real)
    requires x <= y
    ensures Pop(Pop(queue, x), y) == Pop(queue, y)
    decreases |queue|
  {
    if queue != [] && queue[0] <= x {
      PopTwice(queue[1..], x, y);
    }
  }

  lemma {:induction false} PopAppend(queue: seq<real>, t: real, x: real)
    requires t > x
    ensures Pop(queue + [t], x) == Pop(queue, x) + [t]
    decreases |queue|
  {
    if queue != [] && queue[0] <= x {
      assert (queue + [t])[1..] == queue[1..] + [t];
      PopAppend(queue[1..], t, x);
    }
  }

  lemma {:induction false} LaterOfAll(times: seq<real>, x: real)
    requires forall i :: 0 <= i < |times| ==> times[i] > x
    ensures Later(times, x) == |times|
    decreases |times|
  {
    if times != [] {
      LaterOfAll(times[..|times| - 1], x);
    }
  }

  lemma {:induction false} LaterDropsOld(times: seq<real>, x: real)
    requires times != [] && times[0] <= x
    ensures Later(times, x) == Later(times[1..], x)
    decreases |times|
  {
    var n := |times| - 1;
    if n > 0 {
      LaterDropsOld(times[..n], x);
      assert times[..n][1..] == times[1..][..n - 1];
    }
  }

  /** What survives popping an ordered queue is what is later. */
  lemma {:induction false} PoppedCount(queue: seq<real>, x: real)
    requires Nondecreasing(queue)
    ensures |Pop(queue, x)| == Later(queue, x)
    decreases |queue|
  {
    if queue != [] && queue[0] <= x {
      LaterDropsOld(queue, x);
      PoppedCount(queue[1..], x);
    } else {
      LaterOfAll(queue, x);
    }
  }

  lemma {:induction false} HistoryIsOrdered(limit: nat, clocks: seq<real>)
    requires Nondecreasing(clocks)
    ensures Nondecreasing(Run(limit, clocks).history)
    ensures clocks != [] ==> forall i :: 0 <= i < |Run(limit, clocks).history| ==> Run(limit, clocks).history[i] <= clocks[|clocks| - 1]
    ensures clocks == [] ==> Run(limit, clocks).history == []
    decreases |clocks|
  {
    if clocks != [] {
      HistoryIsOrdered(limit, clocks[..|clocks| - 1]);
    }
  }

  /** The queue is the history without what fell out of the last minute. */
  lemma {:induction false} QueueIsRecentHistory(limit: nat, clocks: seq<real>)
    requires Nondecreasing(clocks)
    ensures var t := Run(limit, clocks);
            t.queue == if clocks == [] then t.history else Pop(t.history, clocks[|clocks| - 1] - WINDOW)
    decreases |clocks|
  {
    if clocks != [] {
      var n := |clocks| - 1;
      var before, now := Run(limit, clocks[..n]), clocks[n];
      QueueIsRecentHistory(limit, clocks[..n]);
      if n > 0 {
        PopTwice(before.history, clocks[n - 1] - WINDOW, now - WINDOW);
      }
      PopAppend(before.history, now, now - WINDOW);
    }
  }

  lemma PrefixIsOrdered(clocks: seq<real>, now: real)
    requires Nondecreasing(clocks + [now])
    ensures Nondecreasing(clocks) && (clocks != [] ==> clocks[|clocks| - 1] <= now)
  {
    var all := clocks + [now];
    assert forall i :: 0 <= i < |clocks| ==> clocks[i] == all[i];
    assert all[|clocks|] == now;
  }

  /** A request is admitted exactly when fewer than the limit were admitted in the minute before it. */
  lemma AdmitsExactlyBelowLimit(limit: nat, clocks: seq<real>, now: real)
    requires Nondecreasing(clocks + [now])
    ensures Step(Run(limit, clocks).queue, limit, now).1 <==> Later(Run(limit, clocks).history, now - 60.0) < limit
  {
    var t := Run(limit, clocks);
    PrefixIsOrdered(clocks, now);
    QueueIsRecentHistory(limit, clocks);
    HistoryIsOrdered(limit, clocks);
    if clocks != [] {
      PopTwice(t.history, clocks[|clocks| - 1] - WINDOW, now - WINDOW);
    }
    PoppedCount(t.history, now - WINDOW);
  }

  /** How many of the times lie in (x, x + 60]. */
  function InMinute(times: seq<real>, x: real): nat {
    if times == [] then 0
    else InMinute(times[..|times| - 1], x) + (if x < times[|times| - 1] <= x + 60.0 then 1 else 0)
  }

  lemma {:induction false} InMinuteIsLater(times: seq<real>, x: real, y: real)
    requires y <= x
    ensures InMinute(times, x) <= Later(times, y)
    decreases |times|
  {
    if times != [] {
      InMinuteIsLater(times[..|times| - 1], x, y);
    }
  }

  lemma InMinuteAppend(times: seq<real>, now: real, x: real)
    ensures InMinute(times + [now], x) == InMinute(times, x) + (if x < now <= x + 60.0 then 1 else 0)
  {
    assert (times + [now])[..|times|] == times;
  }

  lemma StepAppends(limit: nat, clocks: seq<real>, now: real)
    ensures var before := Run(limit, clocks);
            Run(limit, clocks + [now]).history
            == if Step(before.queue, limit, now).1 then before.history + [now] else before.history
  {
    assert (clocks + [now])[..|clocks|] == clocks;
  }

  /** No minute ever contains more admissions than the limit. */
  lemma {:induction false} NoMinuteExceedsLimit(limit: nat, clocks: seq<real>, x: real)
    requires Nondecreasing(clocks)
    ensures InMinute(Run(limit, clocks).history, x) <= limit
    decreases |clocks|
  {
    if clocks != [] {
      var n := |clocks| - 1;
      var before, now := Run(limit, clocks[..n]), clocks[n];
      NoMinuteExceedsLimit(limit, clocks[..n], x);
      assert clocks[..n] + [now] == clocks;
      AdmitsExactlyBelowLimit(limit, clocks[..n], now);
      StepAppends(limit, clocks[..n], now);
      InMinuteAppend(before.history, now, x);
      if x < now <= x + WINDOW {
        InMinuteIsLater(before.history, x, now - WINDOW);
      }
    }
  }
}
