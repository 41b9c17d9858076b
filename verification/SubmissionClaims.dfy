/** Over every run: what a row in the table says about how it was claimed, and a broker call about its row. */
module SubmissionClaims {
  import opened Basics
  import opened SubmissionJournal
  import opened SubmissionProtocol

  /** Some submitter was given this receipt for this request, with this expiry. */
  ghost predicate Given(events: seq<Event>, requestHash: string, receiptId: string, expiry: Instant) {
    exists e :: e in events && IsGiven(e, requestHash, receiptId, expiry)
  }

  predicate IsGiven(e: Event, requestHash: string, receiptId: string, expiry: Instant) {
    e.Submit? && e.requestHash == requestHash && e.receiptId == receiptId && e.expiry == expiry
  }

  /** A row was claimed before it expired, and what it binds was given. */
  ghost predicate ClaimedInTime(row: Row, requestHash: string, events: seq<Event>) {
    row.claimedAt < row.expiresAt && Given(events, requestHash, row.receiptId, row.expiresAt)
  }

  ghost predicate RowsInTime(rows: map<string, Row>, events: seq<Event>) {
    forall h :: h in rows ==> ClaimedInTime(rows[h], h, events)
  }

  ghost predicate CallsGiven(calls: map<nat, Call>, events: seq<Event>) {
    forall c :: c in calls && calls[c].pc.Authorized? ==>
      Given(events, calls[c].pc.requestHash, calls[c].pc.receiptId, calls[c].pc.expiry)
  }

  /** What a consume does to the rows: nothing, or one more, claimed in time while there was room. */
  lemma ConsumeAddsInTime(h: Handle, receiptId: string, requestHash: string, expiry: Instant, now: Instant, token: string,
                          capacity: nat, fault: Fault)
    requires requestHash in h.db.rows ==> h.db.rows[requestHash].requestHash == requestHash
    ensures var rows := ConsumeSpec(h, receiptId, requestHash, expiry, now, token, capacity, fault).handle.db.rows;
            || rows == h.db.rows
            || (requestHash !in h.db.rows && |h.db.rows| < capacity && now < expiry
                && rows == h.db.rows[requestHash := ClaimedRow(receiptId, requestHash, expiry, token, now)])
  {
    assert requestHash in h.db.rows ==> Collides(h.db.rows, receiptId, requestHash);
  }

  lemma OneMore(rows: map<string, Row>, key: string, row: Row)
    requires key !in rows
    ensures |rows[key := row]| == |rows| + 1
  {
    assert rows[key := row].Keys == rows.Keys + {key};
  }

  lemma ConsumeKeepsRows(s: System, e: Event, events: seq<Event>)
    requires DbInv(s.db) && e.Consume? && RowsInTime(s.db.rows, events) && CallsGiven(s.calls, events) && |s.db.rows| <= s.capacity
    ensures RowsInTime(Apply(s, e).db.rows, events) && |Apply(s, e).db.rows| <= s.capacity
  {
    if e.call in s.calls && s.calls[e.call].pc.Authorized? {
      var pc, h := s.calls[e.call].pc, HandleOf(s, s.calls[e.call].process);
      ConsumeAddsInTime(h, pc.receiptId, pc.requestHash, pc.expiry, e.now, e.token, s.capacity, e.fault);
      OneMoreInTime(s.db.rows, Apply(s, e).db.rows, pc.requestHash,
                    ClaimedRow(pc.receiptId, pc.requestHash, pc.expiry, e.token, e.now), s.capacity, events);
    }
  }

  lemma OneMoreInTime(a: map<string, Row>, b: map<string, Row>, key: string, row: Row, capacity: nat, events: seq<Event>)
    requires RowsInTime(a, events) && |a| <= capacity && Given(events, key, row.receiptId, row.expiresAt)
    requires b == a || (key !in a && |a| < capacity && row.claimedAt < row.expiresAt && b == a[key := row])
    ensures RowsInTime(b, events) && |b| <= capacity
  {
    if b != a {
      OneMore(a, key, row);
    }
  }

  lemma OthersKeepRows(s: System, e: Event, events: seq<Event>)
    requires Inv(s) && !e.Consume? && RowsInTime(s.db.rows, events) && |s.db.rows| <= s.capacity
    ensures RowsInTime(Apply(s, e).db.rows, events) && |Apply(s, e).db.rows| <= s.capacity
  {
    ApplyKeeps(s, e);
    OnlyConsumeAdds(s, e);
    SameRowsInTime(s.db, Apply(s, e).db, events);
  }

  lemma SameRowsInTime(a: Db, b: Db, events: seq<Event>)
    requires DbAdvances(a, b) && (forall h :: h in b.rows ==> h in a.rows) && RowsInTime(a.rows, events)
    ensures RowsInTime(b.rows, events) && |b.rows| == |a.rows|
  {
    assert b.rows.Keys == a.rows.Keys;
    forall h | h in b.rows ensures ClaimedInTime(b.rows[h], h, events) {
      assert RowAdvances(a.rows[h], b.rows[h]) && ClaimedInTime(a.rows[h], h, events);
    }
  }

  lemma StepKeepsCalls(s: System, e: Event, events: seq<Event>)
    requires e in events && CallsGiven(s.calls, events)
    ensures CallsGiven(Apply(s, e).calls, events) && Apply(s, e).capacity == s.capacity
  {
    if e.Submit? {
      assert IsGiven(e, e.requestHash, e.receiptId, e.expiry);
    } else {
      OthersAuthorizeNothing(s, e);
    }
  }

  lemma OthersAuthorizeNothing(s: System, e: Event)
    requires !e.Submit?
    ensures Apply(s, e).capacity == s.capacity
    ensures forall c :: c in Apply(s, e).calls && Apply(s, e).calls[c].pc.Authorized? ==>
              c in s.calls && s.calls[c].pc == Apply(s, e).calls[c].pc
  {
  }

  ghost predicate ClaimsOk(s: System, events: seq<Event>) {
    DbInv(s.db) && RowsInTime(s.db.rows, events) && CallsGiven(s.calls, events) && |s.db.rows| <= s.capacity
  }

  lemma StepKeepsClaims(s: System, e: Event, events: seq<Event>)
    requires Inv(s) && ClaimsOk(s, events) && e in events
    ensures Inv(Apply(s, e)) && ClaimsOk(Apply(s, e), events) && Apply(s, e).capacity == s.capacity
  {
    ApplyKeeps(s, e);
    StepKeepsCalls(s, e, events);
    if e.Consume? {
      ConsumeKeepsRows(s, e, events);
    } else {
      OthersKeepRows(s, e, events);
    }
  }

  lemma {:induction false} RunKeepsClaims(s: System, run: seq<Event>, events: seq<Event>)
    requires Inv(s) && ClaimsOk(s, events) && forall i :: 0 <= i < |run| ==> run[i] in events
    ensures ClaimsOk(Run(s, run), events) && Run(s, run).capacity == s.capacity
    decreases |run|
  {
    if run != [] {
      StepKeepsClaims(s, run[0], events);
      RunKeepsClaims(Apply(s, run[0]), run[1..], events);
    }
  }

  /**
   * In every run the table stays within its capacity, and every row was claimed, before it expired, for a receipt that
   * some submitter was given for that request with that expiry.
   */
  lemma RowsAreClaimedInTime(capacity: nat, events: seq<Event>, requestHash: string)
    ensures |Run(Initial(capacity), events).db.rows| <= capacity
    ensures var rows := Run(Initial(capacity), events).db.rows;
            requestHash in rows ==>
              && rows[requestHash].claimedAt < rows[requestHash].expiresAt
              && Given(events, requestHash, rows[requestHash].receiptId, rows[requestHash].expiresAt)
  {
    InitialInv(capacity);
    RunKeepsClaims(Initial(capacity), events, events);
  }

  /** Every broker call belongs to a row, of its own receipt, that was claimed before that receipt expired. */
  lemma CallsAreClaimedInTime(capacity: nat, events: seq<Event>, i: nat)
    requires i < |Run(Initial(capacity), events).sent|
    ensures var s := Run(Initial(capacity), events);
            var call := s.sent[i];
            && call.requestHash in s.db.rows && s.db.rows[call.requestHash].receiptId == call.receiptId
            && s.db.rows[call.requestHash].claimedAt < s.db.rows[call.requestHash].expiresAt
            && Given(events, call.requestHash, call.receiptId, s.db.rows[call.requestHash].expiresAt)
  {
    var s := Run(Initial(capacity), events);
    InitialInv(capacity);
    RunKeeps(Initial(capacity), events);
    assert Attempted(s.db, s.sent[i].requestHash, s.sent[i].receiptId);
    RowsAreClaimedInTime(capacity, events, s.sent[i].requestHash);
  }
}
