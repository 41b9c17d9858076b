/**
 * The paper gateway itself: it sequences one journal handle and one broker client.  Each of its methods is
 * exactly one uninterrupted pass through the events of the submission protocol.
 */
module PaperAdapter {
  import opened Basics
  import opened SubmissionJournal
  import opened SubmissionProtocol

  /** The broker client: what it was asked to submit, and the orders it holds. */
  class Broker {
    var sent: seq<Sent>
    var orders: map<string, string>

    constructor ()
      ensures sent == [] && orders == map[]
    {
      sent, orders := [], map[];
    }

    /** One submit_order call; it may raise (no reply) whether or not the order was accepted. */
    method SubmitOrder(requestHash: string, receiptId: string, accepted: Option<string>)
      modifies this
      ensures sent == old(sent) + [Sent(requestHash, receiptId)]
      ensures orders == Book(old(orders), ClientOrderId(requestHash), accepted)
    {
      sent := sent + [Sent(requestHash, receiptId)];
      if accepted.Some? && ClientOrderId(requestHash) !in orders {
        orders := orders[ClientOrderId(requestHash) := accepted.value];
      }
    }
  }

  /** The clock reading and the fault that one journal transaction meets. */
  datatype Weather = Weather(now: Instant, fault: Fault)

  datatype SubmitResult = Submission(brokerOrderId: string) | NotClaimed | Disabled | Rejected(error: Error) | SubmissionUncertain

  datatype ReconcileResult = Settled(row: Row) | ReconciliationUnavailable

  /** A system of one process that has at most one call in flight. */
  function Solo(capacity: nat, h: Handle, pc: Option<Pc>, sent: seq<Sent>, orders: map<string, string>): System {
    System(capacity, h.db, map[0 := h.owned], if pc.Some? then map[0 := Call(0, pc.value)] else map[], sent, orders)
  }

  lemma SoloAfter(capacity: nat, h: Handle, pc: Pc, sent: seq<Sent>, orders: map<string, string>, h': Handle, next: Option<Pc>)
    ensures After(Solo(capacity, h, Some(pc), sent, orders), 0, h', next) == Solo(capacity, h', next, sent, orders)
    ensures HandleOf(Solo(capacity, h, Some(pc), sent, orders), 0) == h
  {
  }

  lemma RunFirst(s: System, e: Event, rest: seq<Event>)
    ensures Run(s, [e] + rest) == Run(Apply(s, e), rest)
  {
    assert ([e] + rest)[1..] == rest;
  }

  /** A four-event pass that skips the events that do not apply. */
  lemma RunFour(s: System, a: Event, b: Event, c: Event, d: Event)
    ensures Run(s, [a, b, c, d]) == Apply(Apply(Apply(Apply(s, a), b), c), d)
  {
    var s1, s2, s3 := Apply(s, a), Apply(Apply(s, a), b), Apply(Apply(Apply(s, a), b), c);
    assert [a, b, c, d] == [a] + [b, c, d] && [b, c, d] == [b] + [c, d] && [c, d] == [c] + [d] && [d] == [d] + [];
    RunFirst(s, a, [b, c, d]);
    RunFirst(s1, b, [c, d]);
    RunFirst(s2, c, [d]);
    RunFirst(s3, d, []);
  }

  /** Events that continue a call. */
  predicate Continues(e: Event) {
    !e.Submit? && !e.Reconcile? && !e.Crash? && !e.Close?
  }

  lemma NoCall(capacity: nat, h: Handle, sent: seq<Sent>, orders: map<string, string>, e: Event)
    requires Continues(e)
    ensures var s := Solo(capacity, h, None, sent, orders); Apply(s, e) == s
  {
  }

  lemma SkipThree(capacity: nat, h: Handle, sent: seq<Sent>, orders: map<string, string>, a: Event, b: Event, c: Event)
    requires Continues(a) && Continues(b) && Continues(c)
    ensures var s := Solo(capacity, h, None, sent, orders); Apply(Apply(Apply(s, a), b), c) == s
  {
    NoCall(capacity, h, sent, orders, a);
    NoCall(capacity, h, sent, orders, b);
    NoCall(capacity, h, sent, orders, c);
  }

  // One lemma per event: what it does to a one-call system, in terms of the handle's transaction.

  lemma SoloBegin(capacity: nat, h: Handle, requestHash: string, receiptId: string, sent: seq<Sent>,
                  orders: map<string, string>, enabled: bool, w: Weather)
    ensures var s := Solo(capacity, h, Some(ClaimHeld(requestHash, receiptId)), sent, orders);
            var d := BeginSpec(h, receiptId, requestHash, ClientOrderId(requestHash), w.now, w.fault);
            Apply(s, Begin(0, enabled, w.now, w.fault))
            == if !enabled then Solo(capacity, h, None, sent, orders)
            else Solo(capacity, d.handle, if d.out.Ok? then Some(Cleared(requestHash, receiptId)) else None, sent, orders)
  {
    var d := BeginSpec(h, receiptId, requestHash, ClientOrderId(requestHash), w.now, w.fault);
    SoloAfter(capacity, h, ClaimHeld(requestHash, receiptId), sent, orders, d.handle,
              if d.out.Ok? then Some(Cleared(requestHash, receiptId)) else None);
  }

  lemma SoloSend(capacity: nat, h: Handle, requestHash: string, receiptId: string, sent: seq<Sent>,
                 orders: map<string, string>, accepted: Option<string>, reply: Option<Reply>)
    ensures Apply(Solo(capacity, h, Some(Cleared(requestHash, receiptId)), sent, orders), Send(0, accepted, reply))
         == Solo(capacity, h, Some(Answered(requestHash, receiptId, BrokerIdentity(reply, ClientOrderId(requestHash)))),
                 sent + [Sent(requestHash, receiptId)], Book(orders, ClientOrderId(requestHash), accepted))
  {
  }

  lemma SoloMarks(capacity: nat, h: Handle, requestHash: string, receiptId: string, identity: Option<string>,
                  sent: seq<Sent>, orders: map<string, string>, errorType: string, w: Weather)
    ensures var s := Solo(capacity, h, Some(Answered(requestHash, receiptId, identity)), sent, orders);
            var ending := if identity.Some? then Accepted(identity.value) else Unknown(errorType);
            var d := FinishSpec(h, receiptId, requestHash, ClientOrderId(requestHash), ending, w.now, w.fault);
            && Apply(s, MarkSubmitted(0, w.now, w.fault))
            == (if identity.None? then s
                else Solo(capacity, d.handle, if d.out.Ok? then None else Some(Answered(requestHash, receiptId, None)), sent, orders))
            && Apply(s, MarkUncertain(0, errorType, w.now, w.fault))
            == (if identity.Some? then s else Solo(capacity, d.handle, None, sent, orders))
  {
    var ending := if identity.Some? then Accepted(identity.value) else Unknown(errorType);
    var d := FinishSpec(h, receiptId, requestHash, ClientOrderId(requestHash), ending, w.now, w.fault);
    SoloAfter(capacity, h, Answered(requestHash, receiptId, identity), sent, orders, d.handle, None);
    SoloAfter(capacity, h, Answered(requestHash, receiptId, identity), sent, orders, d.handle,
              Some(Answered(requestHash, receiptId, None)));
  }

  lemma SoloClaim(capacity: nat, h: Handle, requestHash: string, receiptId: string, expiry: Instant, token: string,
                  sent: seq<Sent>, orders: map<string, string>, w: Weather)
    ensures var d := ConsumeSpec(h, receiptId, requestHash, expiry, w.now, token, capacity, w.fault);
            Apply(Apply(Solo(capacity, h, None, sent, orders), Event.Submit(0, 0, requestHash, receiptId, expiry)),
                  Consume(0, w.now, token, w.fault))
            == Solo(capacity, d.handle, if d.out == Ok(true) then Some(ClaimHeld(requestHash, receiptId)) else None, sent, orders)
  {
    var d := ConsumeSpec(h, receiptId, requestHash, expiry, w.now, token, capacity, w.fault);
    var s := Apply(Solo(capacity, h, None, sent, orders), Event.Submit(0, 0, requestHash, receiptId, expiry));
    assert s == Solo(capacity, h, Some(Authorized(requestHash, receiptId, expiry)), sent, orders);
    SoloAfter(capacity, h, Authorized(requestHash, receiptId, expiry), sent, orders, d.handle,
              if d.out == Ok(true) then Some(ClaimHeld(requestHash, receiptId)) else None);
  }

  lemma SoloRead(capacity: nat, h: Handle, requestHash: string, sent: seq<Sent>, orders: map<string, string>)
    ensures var got := GetSpec(h.db, requestHash);
            Apply(Solo(capacity, h, None, sent, orders), Event.Reconcile(0, 0, requestHash))
            == Solo(capacity, h, if got.Ok? && got.value.Some? then Some(RecordRead(requestHash, got.value.value.state)) else None,
                 sent, orders)
  {
  }

  lemma SoloLookup(capacity: nat, h: Handle, requestHash: string, state: State, sent: seq<Sent>,
                   orders: map<string, string>, reply: Option<Reply>, w: Weather)
    ensures var s := Solo(capacity, h, Some(RecordRead(requestHash, state)), sent, orders);
            var identity := BrokerIdentity(reply, ClientOrderId(requestHash));
            var d := ReconcileSpec(h, requestHash, NotSubmitted, None, w.now, w.fault);
            && Apply(s, ResolveClaim(0, w.now, w.fault))
            == (if state == Claimed then Solo(capacity, d.handle, None, sent, orders) else s)
            && Apply(s, Lookup(0, reply))
            == (if state in {Claimed, Reconciled} then s
                else Solo(capacity, h, if identity.Some? then Some(OrderFound(requestHash, identity.value)) else None, sent, orders))
  {
    var d := ReconcileSpec(h, requestHash, NotSubmitted, None, w.now, w.fault);
    SoloAfter(capacity, h, RecordRead(requestHash, state), sent, orders, d.handle, None);
  }

  lemma SoloRecord(capacity: nat, h: Handle, requestHash: string, brokerOrderId: string, sent: seq<Sent>,
                   orders: map<string, string>, w: Weather)
    ensures Apply(Solo(capacity, h, Some(OrderFound(requestHash, brokerOrderId)), sent, orders), RecordOrder(0, w.now, w.fault))
         == Solo(capacity, ReconcileSpec(h, requestHash, BrokerOrderFound, Some(brokerOrderId), w.now, w.fault).handle,
                 None, sent, orders)
  {
    var d := ReconcileSpec(h, requestHash, BrokerOrderFound, Some(brokerOrderId), w.now, w.fault);
    SoloAfter(capacity, h, OrderFound(requestHash, brokerOrderId), sent, orders, d.handle, None);
  }

  /** The broker named the order that was asked for: a bounded, trimmed order id under the expected client order id. */
  predicate NamesOrder(reply: Option<Reply>, requestHash: string) {
    && reply.Some? && reply.value.clientOrderId == "llts-" + requestHash
    && Trimmed(reply.value.brokerOrderId) && Utf8Length(reply.value.brokerOrderId) <= 256
  }

  /** After a broker call: submitted under the id it named, or else uncertain, and told apart by the answer. */
  ghost predicate OutcomeRecorded(h: Handle, requestHash: string, receiptId: string, identity: Option<string>, mark: Weather,
                                  errorType: string, uncertain: Weather, r: SubmitResult, after: Handle)
  {
    var name := "llts-" + requestHash;
    var named := Accepted(if identity.Some? then identity.value else "");
    var marked := FinishSpec(h, receiptId, requestHash, name, named, mark.now, mark.fault);
    if identity.Some? && marked.out.Ok? then r == Submission(identity.value) && after == marked.handle
    else
      var left := if identity.Some? then marked.handle else h;
      && r == SubmissionUncertain
      && after == FinishSpec(left, receiptId, requestHash, name, Unknown(errorType), uncertain.now, uncertain.fault).handle
  }

  /** Disabled or refused by the journal, with no broker call; or one broker call whose outcome is then recorded. */
  ghost predicate AttemptMade(h: Handle, requestHash: string, receiptId: string, enabled: bool, begin: Weather, reply: Option<Reply>,
                              mark: Weather, errorType: string, uncertain: Weather, r: SubmitResult, after: Handle, sent: seq<Sent>)
  {
    var begun := BeginSpec(h, receiptId, requestHash, "llts-" + requestHash, begin.now, begin.fault);
    var identity := if NamesOrder(reply, requestHash) then Some(reply.value.brokerOrderId) else None;
    if !enabled then r == Disabled && after == h && sent == []
    else if begun.out.Err? then r == Rejected(begun.out.error) && after == begun.handle && sent == []
    else
      && sent == [Sent(requestHash, receiptId)]
      && OutcomeRecorded(begun.handle, requestHash, receiptId, identity, mark, errorType, uncertain, r, after)
  }

  /** A record that is missing, final, claimed or open: each with its own answer and its own effect. */
  ghost predicate ReconciliationMade(h: Handle, requestHash: string, heard: Option<Reply>, record: Weather, r: ReconcileResult,
                                     after: Handle)
  {
    var got := GetSpec(h.db, requestHash);
    var unsubmitted := ReconcileSpec(h, requestHash, NotSubmitted, None, record.now, record.fault);
    var found := ReconcileSpec(h, requestHash, BrokerOrderFound, if heard.Some? then Some(heard.value.brokerOrderId) else None,
                               record.now, record.fault);
    if got.Err? || got.value.None? then r == ReconciliationUnavailable && after == h
    else
      match got.value.value.state
      case Reconciled => r == Settled(got.value.value) && after == h
      case Claimed =>
        r == (if unsubmitted.out.Ok? then Settled(unsubmitted.out.value) else ReconciliationUnavailable) && after == unsubmitted.handle
      case _ =>
        if NamesOrder(heard, requestHash) then
          r == (if found.out.Ok? then Settled(found.out.value) else ReconciliationUnavailable) && after == found.handle
        else r == ReconciliationUnavailable && after == h
  }

  class Gateway {
    const journal: Journal
    const broker: Broker

    constructor (journal: Journal, broker: Broker)
      ensures this.journal == journal && this.broker == broker
    {
      this.journal, this.broker := journal, broker;
    }

    /** This gateway as a one-process system, with the call it is making. */
    ghost function Alone(pc: Option<Pc>): System
      reads journal, journal.store, broker
    {
      Solo(journal.maxEntries, journal.View(), pc, broker.sent, broker.orders)
    }

    /** Records the outcome of a broker call; a failure to record an unknown outcome is suppressed. */
    method RecordOutcome(requestHash: string, receiptId: string, identity: Option<string>, mark: Weather,
                         errorType: string, uncertain: Weather) returns (r: SubmitResult)
      modifies journal`owned, journal.store
      ensures Alone(None)
           == Apply(Apply(old(Alone(Some(Answered(requestHash, receiptId, identity)))), MarkSubmitted(0, mark.now, mark.fault)),
                    MarkUncertain(0, errorType, uncertain.now, uncertain.fault))
      ensures OutcomeRecorded(old(journal.View()), requestHash, receiptId, identity, mark, errorType, uncertain, r, journal.View())
      ensures r.SubmissionUncertain? || (r.Submission? && identity == Some(r.brokerOrderId))
      ensures r.Submission? ==>
                && requestHash in journal.store.rows
                && journal.store.rows[requestHash].state in {Submitted, Reconciled}
                && journal.store.rows[requestHash].brokerOrderId == identity
    {
      var clientOrderId := ClientOrderId(requestHash);
      if identity.Some? {
        SoloMarks(journal.maxEntries, journal.View(), requestHash, receiptId, identity, broker.sent, broker.orders, errorType, mark);
        var marked := journal.FinishOwnedAttempt(receiptId, requestHash, clientOrderId, Accepted(identity.value), mark.now, mark.fault);
        if marked.Ok? {
          NoCall(journal.maxEntries, journal.View(), broker.sent, broker.orders,
                 MarkUncertain(0, errorType, uncertain.now, uncertain.fault));
          return Submission(identity.value);
        }
      } else {
        SoloMarks(journal.maxEntries, journal.View(), requestHash, receiptId, identity, broker.sent, broker.orders, errorType, mark);
      }
      SoloMarks(journal.maxEntries, journal.View(), requestHash, receiptId, None, broker.sent, broker.orders, errorType, uncertain);
      var _ := journal.FinishOwnedAttempt(receiptId, requestHash, clientOrderId, Unknown(errorType), uncertain.now, uncertain.fault);
      return SubmissionUncertain;
    }

    method SubmitAuthorized(requestHash: string, receiptId: string, enabled: bool, begin: Weather,
                            accepted: Option<string>, reply: Option<Reply>, mark: Weather,
                            errorType: string, uncertain: Weather) returns (r: SubmitResult)
      modifies journal`owned, journal.store, broker
      ensures Alone(None)
           == Run(old(Alone(Some(ClaimHeld(requestHash, receiptId)))),
                  [Begin(0, enabled, begin.now, begin.fault), Send(0, accepted, reply),
                   MarkSubmitted(0, mark.now, mark.fault), MarkUncertain(0, errorType, uncertain.now, uncertain.fault)])
      ensures r.Submission? ==>
                && requestHash in journal.store.rows
                && journal.store.rows[requestHash].state in {Submitted, Reconciled}
                && journal.store.rows[requestHash].brokerOrderId == Some(r.brokerOrderId)
                && BrokerIdentity(reply, ClientOrderId(requestHash)) == Some(r.brokerOrderId)
      ensures r.Disabled? || r.Rejected? <==> broker.sent == old(broker.sent)
      ensures old(broker.sent) <= broker.sent
              && AttemptMade(old(journal.View()), requestHash, receiptId, enabled, begin, reply, mark, errorType, uncertain, r,
                             journal.View(), broker.sent[|old(broker.sent)|..])
    {
      ghost var e2, e3 := Send(0, accepted, reply), MarkSubmitted(0, mark.now, mark.fault);
      ghost var e4 := MarkUncertain(0, errorType, uncertain.now, uncertain.fault);
      RunFour(Alone(Some(ClaimHeld(requestHash, receiptId))), Begin(0, enabled, begin.now, begin.fault), e2, e3, e4);
      SoloBegin(journal.maxEntries, journal.View(), requestHash, receiptId, broker.sent, broker.orders, enabled, begin);
      if !enabled {
        SkipThree(journal.maxEntries, journal.View(), broker.sent, broker.orders, e2, e3, e4);
        return Disabled;
      }
      var begun := journal.BeginSubmission(receiptId, requestHash, ClientOrderId(requestHash), begin.now, begin.fault);
      if begun.Err? {
        SkipThree(journal.maxEntries, journal.View(), broker.sent, broker.orders, e2, e3, e4);
        return Rejected(begun.error);
      }
      SoloSend(journal.maxEntries, journal.View(), requestHash, receiptId, broker.sent, broker.orders, accepted, reply);
      broker.SubmitOrder(requestHash, receiptId, accepted);
      r := RecordOutcome(requestHash, receiptId, BrokerIdentity(reply, ClientOrderId(requestHash)), mark, errorType, uncertain);
    }

    /** Claims the receipt, then submits; nothing reaches the broker unless the claim was this call's own. */
    method Submit(requestHash: string, receiptId: string, expiry: Instant, token: string, claim: Weather,
                  enabled: bool, begin: Weather, accepted: Option<string>, reply: Option<Reply>, mark: Weather,
                  errorType: string, uncertain: Weather) returns (r: SubmitResult)
      modifies journal`owned, journal.store, broker
      ensures Alone(None)
           == Run(Apply(Apply(old(Alone(None)), Event.Submit(0, 0, requestHash, receiptId, expiry)),
                        Consume(0, claim.now, token, claim.fault)),
                  [Begin(0, enabled, begin.now, begin.fault), Send(0, accepted, reply),
                   MarkSubmitted(0, mark.now, mark.fault), MarkUncertain(0, errorType, uncertain.now, uncertain.fault)])
      ensures var claimed := ConsumeSpec(old(journal.View()), receiptId, requestHash, expiry, claim.now, token, journal.maxEntries,
                                         claim.fault);
              if claimed.out == Ok(true) then
                && old(broker.sent) <= broker.sent
                && AttemptMade(claimed.handle, requestHash, receiptId, enabled, begin, reply, mark, errorType, uncertain, r,
                               journal.View(), broker.sent[|old(broker.sent)|..])
              else
                && r == (if claimed.out.Ok? then NotClaimed else Rejected(claimed.out.error))
                && journal.View() == claimed.handle && broker.sent == old(broker.sent) && broker.orders == old(broker.orders)
    {
      SoloClaim(journal.maxEntries, journal.View(), requestHash, receiptId, expiry, token, broker.sent, broker.orders, claim);
      var claimed := journal.Consume(receiptId, requestHash, expiry, claim.now, token, claim.fault);
      if claimed != Ok(true) {
        ghost var e1, e2 := Begin(0, enabled, begin.now, begin.fault), Send(0, accepted, reply);
        ghost var e3, e4 := MarkSubmitted(0, mark.now, mark.fault), MarkUncertain(0, errorType, uncertain.now, uncertain.fault);
        RunFour(Alone(None), e1, e2, e3, e4);
        NoCall(journal.maxEntries, journal.View(), broker.sent, broker.orders, e1);
        SkipThree(journal.maxEntries, journal.View(), broker.sent, broker.orders, e2, e3, e4);
        return if claimed.Ok? then NotClaimed else Rejected(claimed.error);
      }
      r := SubmitAuthorized(requestHash, receiptId, enabled, begin, accepted, reply, mark, errorType, uncertain);
    }

    /** Asks the broker for the order behind an open record, and records what it finds. */
    method LookupAndRecord(requestHash: string, state: State, heard: Option<Reply>, record: Weather) returns (r: ReconcileResult)
      requires state !in {Claimed, Reconciled}
      modifies journal`owned, journal.store
      ensures Alone(None)
           == Apply(Apply(old(Alone(Some(RecordRead(requestHash, state)))), Lookup(0, heard)),
                    RecordOrder(0, record.now, record.fault))
      ensures r.Settled? ==>
                requestHash in journal.store.rows && r.row == journal.store.rows[requestHash] && r.row.state == Reconciled
      ensures if NamesOrder(heard, requestHash) then
                var found := ReconcileSpec(old(journal.View()), requestHash, BrokerOrderFound, Some(heard.value.brokerOrderId),
                                           record.now, record.fault);
                && r == (if found.out.Ok? then Settled(found.out.value) else ReconciliationUnavailable)
                && journal.View() == found.handle
              else r == ReconciliationUnavailable && journal.View() == old(journal.View())
    {
      ghost var capacity, sent, orders := journal.maxEntries, broker.sent, broker.orders;
      SoloLookup(capacity, journal.View(), requestHash, state, sent, orders, heard, record);
      var identity := BrokerIdentity(heard, ClientOrderId(requestHash));
      if identity.None? {
        NoCall(capacity, journal.View(), sent, orders, RecordOrder(0, record.now, record.fault));
        return ReconciliationUnavailable;
      }
      SoloRecord(capacity, journal.View(), requestHash, identity.value, sent, orders, record);
      var done := journal.MarkReconciled(requestHash, BrokerOrderFound, identity, record.now, record.fault);
      return if done.Ok? then Settled(done.value) else ReconciliationUnavailable;
    }

    /** Records that a claimed request was never submitted. */
    method ResolveUnsubmitted(requestHash: string, heard: Option<Reply>, record: Weather) returns (r: ReconcileResult)
      modifies journal`owned, journal.store
      ensures Alone(None)
           == Apply(Apply(Apply(old(Alone(Some(RecordRead(requestHash, Claimed)))), ResolveClaim(0, record.now, record.fault)),
                          Lookup(0, heard)),
                    RecordOrder(0, record.now, record.fault))
      ensures r.Settled? ==>
                requestHash in journal.store.rows && r.row == journal.store.rows[requestHash] && r.row.state == Reconciled
      ensures var unsubmitted := ReconcileSpec(old(journal.View()), requestHash, NotSubmitted, None, record.now, record.fault);
              && r == (if unsubmitted.out.Ok? then Settled(unsubmitted.out.value) else ReconciliationUnavailable)
              && journal.View() == unsubmitted.handle
    {
      ghost var capacity, sent, orders := journal.maxEntries, broker.sent, broker.orders;
      SoloLookup(capacity, journal.View(), requestHash, Claimed, sent, orders, heard, record);
      var done := journal.MarkReconciled(requestHash, NotSubmitted, None, record.now, record.fault);
      NoCall(capacity, journal.View(), sent, orders, Lookup(0, heard));
      NoCall(capacity, journal.View(), sent, orders, RecordOrder(0, record.now, record.fault));
      return if done.Ok? then Settled(done.value) else ReconciliationUnavailable;
    }

    /** Read-only broker lookup with a durable result; it never submits. */
    method Reconcile(requestHash: string, accountOk: bool, reply: Option<Reply>, record: Weather) returns (r: ReconcileResult)
      modifies journal`owned, journal.store
      ensures Alone(None)
           == Run(old(Alone(None)),
                  [Event.Reconcile(0, 0, requestHash), ResolveClaim(0, record.now, record.fault),
                   Lookup(0, if accountOk then reply else None), RecordOrder(0, record.now, record.fault)]).(calls := map[])
      ensures r.Settled? ==>
                requestHash in journal.store.rows && r.row == journal.store.rows[requestHash] && r.row.state == Reconciled
      ensures ReconciliationMade(old(journal.View()), requestHash, if accountOk then reply else None, record, r, journal.View())
    {
      ghost var capacity, sent, orders := journal.maxEntries, broker.sent, broker.orders;
      var heard := if accountOk then reply else None;
      ghost var e2, e3 := ResolveClaim(0, record.now, record.fault), Lookup(0, heard);
      ghost var e4 := RecordOrder(0, record.now, record.fault);
      RunFour(Alone(None), Event.Reconcile(0, 0, requestHash), e2, e3, e4);
      SoloRead(capacity, journal.View(), requestHash, sent, orders);
      var got := GetSpec(Db(journal.store.rows, journal.store.lastClock), requestHash);
      if got.Err? || got.value.None? {
        SkipThree(capacity, journal.View(), sent, orders, e2, e3, e4);
        return ReconciliationUnavailable;
      }
      var state := got.value.value.state;
      if state == Claimed {
        r := ResolveUnsubmitted(requestHash, heard, record);
        return;
      }
      SoloLookup(capacity, journal.View(), requestHash, state, sent, orders, heard, record);
      if state == Reconciled {
        return Settled(got.value.value);
      }
      r := LookupAndRecord(requestHash, state, heard, record);
    }
  }
}
