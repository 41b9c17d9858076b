/** The bounded in-memory replay guard, which forgets expired claims, against the full history of its calls. */
module ReplayGuard {
  import opened Basics

  datatype Guard = Guard(used: map<string, Instant>, lastNow: Option<Instant>)

  const EMPTY := Guard(map[], None)

  datatype Answer = ClockUnavailable | Answered(claimed: bool)

  function Prune(used: map<string, Instant>, now: Instant): map<string, Instant> {
    map id | id in used && used[id] > now :: used[id]
  }

  /** One call: the clock may be unavailable, may have gone back, and the claim may be expired, taken or over capacity. */
  function Step(g: Guard, max: nat, id: string, expiry: Instant, clock: Option<Instant>): (Guard, Answer) {
    if clock.None? then (g, ClockUnavailable)
    else if g.lastNow.Some? && clock.value < g.lastNow.value then (g, Answered(false))
    else
      var live := Prune(g.used, clock.value);
      if expiry <= clock.value || id in live || |live| >= max then (Guard(live, clock), Answered(false))
      else (Guard(live[id := expiry], clock), Answered(true))
  }

  class InMemoryReceiptConsumer {
    var used: map<string, Instant>
    var lastNow: Option<Instant>
    const maxEntries: nat

    constructor (maxEntries: nat)
      requires maxEntries > 0
      ensures State() == EMPTY && this.maxEntries == maxEntries
    {
      this.used, this.lastNow, this.maxEntries := map[], None, maxEntries;
    }

    function State(): Guard
      reads this
    {
      Guard(used, lastNow)
    }

    method Consume(id: string, expiry: Instant, clock: Option<Instant>) returns (answer: Answer)
      modifies this
      ensures (State(), answer) == Step(old(State()), maxEntries, id, expiry, clock)
    {
      if clock.None? {
        return ClockUnavailable;
      }
      var now := clock.value;
      if lastNow.Some? && now < lastNow.value {
        return Answered(false);
      }
      lastNow := Some(now);
      var expired := set key | key in used && used[key] <= now;
      while expired != {}
        invariant used.Keys <= old(used).Keys && lastNow == clock
        invariant forall key :: key in used ==> used[key] == old(used)[key]
        invariant forall key :: key in expired <==> key in used && used[key] <= now
        invariant forall key :: key in old(used) && old(used)[key] > now ==> key in used
        decreases |expired|
      {
        var key :| key in expired;
        used := used - {key};
        expired := expired - {key};
      }
      assert used == Prune(old(used), now);
      if expiry <= now || id in used {
        return Answered(false);
      }
      if |used| >= maxEntries {
        return Answered(false);
      }
      used := used[id := expiry];
      return Answered(true);
    }
  }

  // ----- runs -----

  datatype Call = Call(id: string, expiry: Instant, clock: Option<Instant>)

  function After(calls: seq<Call>, max: nat, n: nat): Guard
    requires n <= |calls|
  {
    if n == 0 then EMPTY
    else Step(After(calls, max, n - 1), max, calls[n - 1].id, calls[n - 1].expiry, calls[n - 1].clock).0
  }

  function AnswerTo(calls: seq<Call>, max: nat, k: nat): Answer
    requires k < |calls|
  {
    Step(After(calls, max, k), max, calls[k].id, calls[k].expiry, calls[k].clock).1
  }

  predicate Claims(calls: seq<Call>, max: nat, k: nat)
    requires k < |calls|
  {
    AnswerTo(calls, max, k) == Answered(true)
  }

  /** The claims granted so far that are still unexpired at an instant: what a guard that never forgets would look up. */
  function LiveIds(calls: seq<Call>, max: nat, k: nat, now: Instant): set<string>
    requires k <= |calls|
  {
    set i | 0 <= i < k && Claims(calls, max, i) && calls[i].expiry > now :: calls[i].id
  }

  predicate NeverBefore(calls: seq<Call>, k: nat, now: Instant)
    requires k <= |calls|
  {
    forall i :: 0 <= i < k && calls[i].clock.Some? ==> calls[i].clock.value <= now
  }

  lemma PruneShrinks(used: map<string, Instant>, now: Instant)
    ensures |Prune(used, now)| <= |used|
  {
    assert Prune(used, now).Keys <= used.Keys;
    SubsetSize(Prune(used, now).Keys, used.Keys);
  }

  /** Never more entries than configured, at any point of any run. */
  lemma {:induction false} StaysWithinCapacity(calls: seq<Call>, max: nat, n: nat)
    requires n <= |calls|
    ensures |After(calls, max, n).used| <= max
  {
    if n > 0 {
      StaysWithinCapacity(calls, max, n - 1);
      if calls[n - 1].clock.Some? {
        PruneShrinks(After(calls, max, n - 1).used, calls[n - 1].clock.value);
      }
    }
  }

  /** A granted claim is still held, with its expiry, or had expired by the latest reading. */
  lemma {:induction false} GrantIsKept(calls: seq<Call>, max: nat, i: nat, n: nat)
    requires i < n <= |calls| && Claims(calls, max, i)
    ensures var g := After(calls, max, n);
            g.lastNow.Some? && (calls[i].expiry <= g.lastNow.value
                                || (calls[i].id in g.used && g.used[calls[i].id] == calls[i].expiry))
    decreases n
  {
    if n > i + 1 {
      GrantIsKept(calls, max, i, n - 1);
    }
  }

  /** Every held claim was granted. */
  lemma {:induction false} HeldWasGranted(calls: seq<Call>, max: nat, n: nat, id: string) returns (i: nat)
    requires n <= |calls| && id in After(calls, max, n).used
    ensures i < n && Claims(calls, max, i) && calls[i].id == id && calls[i].expiry == After(calls, max, n).used[id]
    decreases n
  {
    var g := After(calls, max, n - 1);
    if id in g.used && After(calls, max, n).used[id] == g.used[id] {
      i := HeldWasGranted(calls, max, n - 1, id);
    } else {
      i := n - 1;
    }
  }

  /** The guard's latest reading is a reading, and the latest one. */
  lemma {:induction false} LatestReading(calls: seq<Call>, max: nat, n: nat) returns (i: nat)
    requires n <= |calls|
    ensures var last := After(calls, max, n).lastNow;
            && (last.Some? ==> i < n && calls[i].clock == last && NeverBefore(calls, n, last.value))
            && (last.None? ==> forall k :: 0 <= k < n ==> calls[k].clock.None?)
    decreases n
  {
    i := 0;
    if n > 0 {
      i := LatestReading(calls, max, n - 1);
      if After(calls, max, n).lastNow != After(calls, max, n - 1).lastNow {
        i := n - 1;
      }
    }
  }

  lemma LiveIdsAreThePrunedState(calls: seq<Call>, max: nat, k: nat, now: Instant)
    requires k <= |calls|
    requires After(calls, max, k).lastNow.Some? ==> After(calls, max, k).lastNow.value <= now
    ensures LiveIds(calls, max, k, now) == Prune(After(calls, max, k).used, now).Keys
  {
    var g := After(calls, max, k);
    forall id | id in Prune(g.used, now) ensures id in LiveIds(calls, max, k, now) {
      var i := HeldWasGranted(calls, max, k, id);
    }
    forall i | 0 <= i < k && Claims(calls, max, i) && calls[i].expiry > now ensures calls[i].id in Prune(g.used, now) {
      GrantIsKept(calls, max, i, k);
    }
  }

  /**
   * The forgetful guard answers from the full history: it grants a claim exactly when no earlier reading is
   * later, the claim is unexpired, no unexpired earlier claim has the id, and there is room among those.
   */
  lemma AnswersFromHistory(calls: seq<Call>, max: nat, k: nat)
    requires k < |calls|
    ensures AnswerTo(calls, max, k) == ClockUnavailable <==> calls[k].clock.None?
    ensures Claims(calls, max, k)
            <==> && calls[k].clock.Some?
                 && var now := calls[k].clock.value;
                    && NeverBefore(calls, k, now) && now < calls[k].expiry
                    && calls[k].id !in LiveIds(calls, max, k, now) && |LiveIds(calls, max, k, now)| < max
  {
    var g := After(calls, max, k);
    var latest := LatestReading(calls, max, k);
    if calls[k].clock.Some? {
      var now := calls[k].clock.value;
      if g.lastNow.Some? && now < g.lastNow.value {
        assert !NeverBefore(calls, k, now);
      } else {
        assert NeverBefore(calls, k, now);
        LiveIdsAreThePrunedState(calls, max, k, now);
        assert |LiveIds(calls, max, k, now)| == |Prune(g.used, now)|;
      }
    }
  }

  /** A second claim of one id needs a reading at which the first had expired and the second had not. */
  lemma SecondClaimNeedsLaterExpiry(calls: seq<Call>, max: nat, i: nat, j: nat)
    requires i < j < |calls| && calls[i].id == calls[j].id && Claims(calls, max, i) && Claims(calls, max, j)
    ensures calls[j].clock.Some? && calls[i].expiry <= calls[j].clock.value < calls[j].expiry
  {
    AnswersFromHistory(calls, max, j);
  }

  // ----- exactly when the guard is replay-safe -----

  /** The same calls with other clock readings. */
  function WithClocks(calls: seq<Call>, clocks: seq<Option<Instant>>): seq<Call>
    requires |clocks| == |calls|
  {
    seq(|calls|, k requires 0 <= k < |calls| => calls[k].(clock := clocks[k]))
  }

  ghost predicate AtMostOnce(calls: seq<Call>, max: nat) {
    forall i, j :: 0 <= i < j < |calls| && calls[i].id == calls[j].id ==> !(Claims(calls, max, i) && Claims(calls, max, j))
  }

  /** Whatever the clock does, no id is claimed twice. */
  ghost predicate ReplaySafe(calls: seq<Call>, max: nat) {
    forall clocks: seq<Option<Instant>> | |clocks| == |calls| :: AtMostOnce(WithClocks(calls, clocks), max)
  }

  /** No id comes back with a later expiry; in particular so when expiry is a function of the id. */
  predicate ExpiryNeverGrows(calls: seq<Call>) {
    forall i, j :: 0 <= i < j < |calls| && calls[i].id == calls[j].id ==> calls[j].expiry <= calls[i].expiry
  }

  /** Readings at two calls only, one just before the first expiry and one at it. */
  function TwoReadings(calls: seq<Call>, i: nat, j: nat): seq<Option<Instant>>
    requires i < j < |calls|
  {
    seq(|calls|, k => if k == i then Some(calls[i].expiry - 1) else if k == j then Some(calls[i].expiry) else None)
  }

  lemma {:induction false} IdleBetweenReadings(calls: seq<Call>, max: nat, i: nat, j: nat, n: nat)
    requires i < j < |calls| && n <= j && max > 0
    ensures var run := WithClocks(calls, TwoReadings(calls, i, j));
            After(run, max, n) == if n <= i then EMPTY
                                  else Guard(map[calls[i].id := calls[i].expiry], Some(calls[i].expiry - 1))
  {
    if n > 0 {
      IdleBetweenReadings(calls, max, i, j, n - 1);
      assert Prune(map[], calls[i].expiry - 1) == map[];
    }
  }

  lemma TwoReadingsReplay(calls: seq<Call>, max: nat, i: nat, j: nat)
    requires i < j < |calls| && calls[i].id == calls[j].id && calls[i].expiry < calls[j].expiry && max > 0
    ensures !AtMostOnce(WithClocks(calls, TwoReadings(calls, i, j)), max)
  {
    var run := WithClocks(calls, TwoReadings(calls, i, j));
    IdleBetweenReadings(calls, max, i, j, i);
    IdleBetweenReadings(calls, max, i, j, j);
    assert Prune(map[], calls[i].expiry - 1) == map[];
    assert Prune(map[calls[i].id := calls[i].expiry], calls[i].expiry) == map[];
    assert run[i].id == run[j].id && Claims(run, max, i) && Claims(run, max, j);
  }

  /** Forgetting is safe exactly when no id ever comes back with a later expiry. */
  lemma ReplaySafeExactlyWhenExpiryNeverGrows(calls: seq<Call>, max: nat)
    requires max > 0
    ensures ReplaySafe(calls, max) <==> ExpiryNeverGrows(calls)
  {
    if ExpiryNeverGrows(calls) {
      forall clocks: seq<Option<Instant>> | |clocks| == |calls| ensures AtMostOnce(WithClocks(calls, clocks), max) {
        var run := WithClocks(calls, clocks);
        forall i, j | 0 <= i < j < |run| && run[i].id == run[j].id ensures !(Claims(run, max, i) && Claims(run, max, j)) {
          assert calls[j].expiry <= calls[i].expiry;
          if Claims(run, max, i) && Claims(run, max, j) {
            SecondClaimNeedsLaterExpiry(run, max, i, j);
          }
        }
      }
    } else {
      var i, j :| 0 <= i < j < |calls| && calls[i].id == calls[j].id && calls[i].expiry < calls[j].expiry;
      TwoReadingsReplay(calls, max, i, j);
      assert !AtMostOnce(WithClocks(calls, TwoReadings(calls, i, j)), max);
    }
  }

  /** A receipt id claimed at 0 until 10 can be claimed again at 15 if it comes with expiry 30. */
  lemma GrowingExpiryReplays()
    ensures var calls := [Call("r", 10, Some(0)), Call("r", 30, Some(15))];
            Claims(calls, 1, 0) && Claims(calls, 1, 1)
  {
    var calls := [Call("r", 10, Some(0)), Call("r", 30, Some(15))];
    assert Prune(map[], 0) == map[];
    assert After(calls, 1, 1) == Guard(map["r" := 10], Some(0));
    assert Prune(map["r" := 10], 15) == map[];
  }
}
