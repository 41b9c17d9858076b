/**
 * What a submitter still holds while its attempt is open, and the identities the journal records when the
 * broker keeps one order per client order id.
 */
module SubmissionOwnership {
  import opened Basics
  import opened SubmissionJournal
  import opened SubmissionProtocol

  /** The broker only reports orders from its own book. */
  predicate Honest(s: System, e: Event) {
    match e
    case Send(call, accepted, reply) =>
      call in s.calls && s.calls[call].pc.Cleared? && reply.Some? ==>
        var book := Book(s.orders, ClientOrderId(s.calls[call].pc.requestHash), accepted);
        reply.value.clientOrderId in book && book[reply.value.clientOrderId] == reply.value.brokerOrderId
    case Lookup(call, reply) =>
      reply.Some? ==>
        reply.value.clientOrderId in s.orders && s.orders[reply.value.clientOrderId] == reply.value.brokerOrderId
    case _ => true
  }

  predicate HonestRun(s: System, events: seq<Event>)
    decreases |events|
  {
    events == [] || (Honest(s, events[0]) && HonestRun(Apply(s, events[0]), events[1..]))
  }

  predicate Known(orders: map<string, string>, requestHash: string, brokerOrderId: string) {
    ClientOrderId(requestHash) in orders && orders[ClientOrderId(requestHash)] == brokerOrderId
  }

  predicate BoundedId(id: string) {
    Trimmed(id) && Utf8Length(id) <= 256
  }

  /** A claim in memory is for an existing row, under that row's token while the row has an owner. */
  predicate ClaimOk(db: Db, requestHash: string, token: string) {
    requestHash in db.rows && (db.rows[requestHash].owner.Some? ==> db.rows[requestHash].owner.value == token)
  }

  ghost predicate ClaimsOk(db: Db, owned: map<nat, map<string, string>>) {
    forall p, h :: p in owned && h in owned[p] ==> ClaimOk(db, h, owned[p][h])
  }

  /** An open attempt's row is still submitting, unless a reconciler found its order first. */
  predicate OpenOk(db: Db, orders: map<string, string>, pc: Pc) {
    && (pc.Cleared? || (pc.Answered? && pc.identity.Some?) ==>
          pc.requestHash in db.rows && db.rows[pc.requestHash].state in {Submitting, Reconciled})
    && (pc.Answered? && pc.identity.Some? ==>
          Known(orders, pc.requestHash, pc.identity.value) && BoundedId(pc.identity.value))
    && (pc.OrderFound? ==> Known(orders, pc.requestHash, pc.brokerOrderId))
  }

  ghost predicate RowIdsOk(db: Db, orders: map<string, string>) {
    forall h :: h in db.rows && db.rows[h].brokerOrderId.Some? ==> Known(orders, h, db.rows[h].brokerOrderId.value)
  }

  ghost predicate Own(s: System) {
    && ClaimsOk(s.db, s.owned)
    && (forall c :: c in s.calls ==> OpenOk(s.db, s.orders, s.calls[c].pc))
    && RowIdsOk(s.db, s.orders)
  }

  /** A transaction touches at most the row under key. */
  ghost predicate Touches(a: Db, b: Db, key: string) {
    && (forall h :: h in a.rows ==> h in b.rows)
    && (forall h :: h in b.rows && h != key ==> h in a.rows && b.rows[h] == a.rows[h])
  }

  /** The claims of the acting process afterwards: old ones, or the token just written to the row. */
  predicate ClaimsFrom(db: Db, before: map<string, string>, after: map<string, string>, key: string) {
    forall h :: h in after ==> (h in before && after[h] == before[h]) || (h == key && ClaimOk(db, h, after[h]))
  }

  predicate RowStep(a: Db, b: Db, orders: map<string, string>, key: string) {
    key in b.rows ==>
      && (b.rows[key].brokerOrderId.Some? ==> Known(orders, key, b.rows[key].brokerOrderId.value))
      && (key in a.rows ==> b.rows[key].owner == a.rows[key].owner || b.rows[key].owner.None?)
  }

  /** What one transaction of one handle does to the table and to the handle's claims. */
  ghost predicate Local(a: Handle, b: Handle, orders: map<string, string>, key: string) {
    && Touches(a.db, b.db, key)
    && RowStep(a.db, b.db, orders, key)
    && ClaimsFrom(b.db, a.owned, b.owned, key)
  }

  ghost predicate OthersStayOpen(s: System, b: Db, call: nat, key: string) {
    || b.rows == s.db.rows
    || (key in b.rows && b.rows[key].state in {Submitting, Reconciled})
    || (forall c :: c in s.calls && c != call ==> !Attempts(s.calls[c].pc, key))
  }

  lemma TransactionKeeps(s: System, call: nat, key: string, h: Handle, next: Option<Pc>)
    requires Own(s) && call in s.calls
    requires Local(HandleOf(s, s.calls[call].process), h, s.orders, key)
    requires OthersStayOpen(s, h.db, call, key)
    requires next.Some? ==> OpenOk(h.db, s.orders, next.value)
    ensures Own(After(s, call, h, next))
  {
    var t := After(s, call, h, next);
    forall p, k | p in t.owned && k in t.owned[p]
      ensures ClaimOk(t.db, k, t.owned[p][k])
    {
      if p in s.owned && k in s.owned[p] && s.owned[p][k] == t.owned[p][k] {
        assert ClaimOk(s.db, k, s.owned[p][k]);
      }
    }
    forall c | c in t.calls
      ensures OpenOk(t.db, t.orders, t.calls[c].pc)
    {
      if c != call {
        assert OpenOk(s.db, s.orders, s.calls[c].pc);
      }
    }
  }

  /** What a consume transaction can have done: nothing to the rows, or the one new row, with or without its claim. */
  lemma ConsumeShape(h: Handle, receiptId: string, requestHash: string, expiry: Instant, now: Instant, token: string,
                     capacity: nat, fault: Fault)
    requires requestHash in h.db.rows ==> h.db.rows[requestHash].requestHash == requestHash
    ensures var d := ConsumeSpec(h, receiptId, requestHash, expiry, now, token, capacity, fault).handle;
            || (d.db.rows == h.db.rows && d.owned == h.owned)
            || (requestHash !in h.db.rows && (d.owned == h.owned || d.owned == h.owned[requestHash := token])
                && d.db.rows == h.db.rows[requestHash := ClaimedRow(receiptId, requestHash, expiry, token, now)])
  {
    assert requestHash in h.db.rows ==> Collides(h.db.rows, receiptId, requestHash);
  }

  /** Adding one row, or none, and at most its claim. */
  lemma AddedLocal(a: Handle, b: Handle, orders: map<string, string>, key: string, row: Row, token: string)
    requires row.owner == Some(token) && row.brokerOrderId.None?
    requires RowIdsOk(a.db, orders)
    requires || (b.db.rows == a.db.rows && b.owned == a.owned)
             || (key !in a.db.rows && (b.owned == a.owned || b.owned == a.owned[key := token]) && b.db.rows == a.db.rows[key := row])
    ensures Local(a, b, orders, key) && (b.db.rows == a.db.rows || key !in a.db.rows)
  {
  }

  lemma ConsumeLocal(h: Handle, orders: map<string, string>, receiptId: string, requestHash: string, expiry: Instant,
                     now: Instant, token: string, capacity: nat, fault: Fault)
    requires RowIdsOk(h.db, orders)
    requires requestHash in h.db.rows ==> h.db.rows[requestHash].requestHash == requestHash
    ensures var d := ConsumeSpec(h, receiptId, requestHash, expiry, now, token, capacity, fault);
            Local(h, d.handle, orders, requestHash) && (d.handle.db.rows == h.db.rows || requestHash !in h.db.rows)
  {
    ConsumeShape(h, receiptId, requestHash, expiry, now, token, capacity, fault);
    AddedLocal(h, ConsumeSpec(h, receiptId, requestHash, expiry, now, token, capacity, fault).handle, orders, requestHash,
               ClaimedRow(receiptId, requestHash, expiry, token, now), token);
  }

  /** What a begin transaction can have done: nothing, or the one row moved to submitting. */
  lemma BeginShape(h: Handle, receiptId: string, requestHash: string, clientOrderId: string, now: Instant, fault: Fault)
    ensures var d := BeginSpec(h, receiptId, requestHash, clientOrderId, now, fault);
            && d.handle.owned == h.owned
            && (d.handle.db.rows == h.db.rows
                || (requestHash in h.db.rows && d.handle.db.rows == h.db.rows[requestHash := BegunRow(h.db.rows[requestHash], now)]))
            && (d.out.Ok? ==> requestHash in h.db.rows && h.db.rows[requestHash].state == Claimed
                              && d.handle.db.rows == h.db.rows[requestHash := BegunRow(h.db.rows[requestHash], now)])
  {
  }

  lemma BeginLocal(h: Handle, orders: map<string, string>, receiptId: string, requestHash: string, clientOrderId: string,
                   now: Instant, fault: Fault)
    requires RowIdsOk(h.db, orders)
    ensures var d := BeginSpec(h, receiptId, requestHash, clientOrderId, now, fault);
            && Local(h, d.handle, orders, requestHash)
            && (d.handle.db.rows == h.db.rows
                || (requestHash in d.handle.db.rows && d.handle.db.rows[requestHash].state == Submitting))
            && (d.out.Ok? ==> d.handle.db.rows != h.db.rows)
  {
    BeginShape(h, receiptId, requestHash, clientOrderId, now, fault);
    var d := BeginSpec(h, receiptId, requestHash, clientOrderId, now, fault).handle;
    BegunLocal(h, d, orders, requestHash, now);
    if requestHash in h.db.rows && h.db.rows[requestHash].state == Claimed {
      assert h.db.rows[requestHash := BegunRow(h.db.rows[requestHash], now)][requestHash].state == Submitting;
    }
  }

  lemma BegunLocal(a: Handle, b: Handle, orders: map<string, string>, key: string, now: Instant)
    requires RowIdsOk(a.db, orders) && b.owned == a.owned
    requires b.db.rows == a.db.rows || (key in a.db.rows && b.db.rows == a.db.rows[key := BegunRow(a.db.rows[key], now)])
    ensures Local(a, b, orders, key)
  {
  }

  /** Rewriting one existing row, or none, and dropping at most its claim. */
  lemma RewriteLocal(a: Handle, b: Handle, orders: map<string, string>, key: string, row: Row)
    requires RowIdsOk(a.db, orders)
    requires b.db.rows == a.db.rows || (key in a.db.rows && b.db.rows == a.db.rows[key := row])
    requires b.owned == a.owned || b.owned == Drop(a.owned, key)
    requires row.owner.None? && (row.brokerOrderId.Some? ==> Known(orders, key, row.brokerOrderId.value))
    ensures Local(a, b, orders, key)
  {
  }

  lemma FinishLocal(h: Handle, orders: map<string, string>, receiptId: string, requestHash: string, clientOrderId: string,
                    ending: Ending, now: Instant, fault: Fault)
    requires RowIdsOk(h.db, orders)
    requires ending.Accepted? ==> Known(orders, requestHash, ending.brokerOrderId)
    ensures Local(h, FinishSpec(h, receiptId, requestHash, clientOrderId, ending, now, fault).handle, orders, requestHash)
  {
    var d := FinishSpec(h, receiptId, requestHash, clientOrderId, ending, now, fault);
    var row := if requestHash in h.db.rows then h.db.rows[requestHash] else ClaimedRow("", "", 0, "", 0);
    RewriteLocal(h, d.handle, orders, requestHash, FinishedRow(row, ending, now));
  }

  lemma ReconcileLocal(h: Handle, orders: map<string, string>, requestHash: string, resolution: Resolution,
                       id: Option<string>, now: Instant, fault: Fault)
    requires RowIdsOk(h.db, orders)
    requires id.Some? ==> Known(orders, requestHash, id.value)
    ensures var d := ReconcileSpec(h, requestHash, resolution, id, now, fault);
            && Local(h, d.handle, orders, requestHash)
            && (d.handle.db.rows == h.db.rows
                || (requestHash in d.handle.db.rows && d.handle.db.rows[requestHash].state == Reconciled))
  {
    var d := ReconcileSpec(h, requestHash, resolution, id, now, fault);
    var row := if requestHash in h.db.rows then h.db.rows[requestHash] else ClaimedRow("", "", 0, "", 0);
    RewriteLocal(h, d.handle, orders, requestHash, ReconciledRow(row, resolution, id, now));
  }

  // ----- every event keeps the claims, the open attempts and the broker identities in step -----

  lemma SoleAttempt(s: System, call: nat)
    requires Inv(s) && call in s.calls && (s.calls[call].pc.Cleared? || s.calls[call].pc.Answered?)
    ensures forall c :: c in s.calls && c != call ==> !Attempts(s.calls[c].pc, s.calls[call].pc.requestHash)
  {
  }

  lemma NobodyAttemptsUnknown(s: System, key: string)
    requires Inv(s) && (key in s.db.rows ==> s.db.rows[key].attempts == 0)
    ensures forall c :: c in s.calls ==> !Attempts(s.calls[c].pc, key)
  {
    forall c | c in s.calls
      ensures !Attempts(s.calls[c].pc, key)
    {
      assert PcOk(s.db, s.sent, s.calls[c].pc);
    }
  }

  lemma ConsumeKeepsOwn(s: System, call: nat, now: Instant, token: string, fault: Fault)
    requires Inv(s) && Own(s)
    ensures Own(ApplyConsume(s, call, now, token, fault))
  {
    if call in s.calls && s.calls[call].pc.Authorized? {
      var pc := s.calls[call].pc;
      var h := HandleOf(s, s.calls[call].process);
      var d := ConsumeSpec(h, pc.receiptId, pc.requestHash, pc.expiry, now, token, s.capacity, fault);
      ConsumeLocal(h, s.orders, pc.receiptId, pc.requestHash, pc.expiry, now, token, s.capacity, fault);
      if pc.requestHash !in s.db.rows {
        NobodyAttemptsUnknown(s, pc.requestHash);
      }
      TransactionKeeps(s, call, pc.requestHash, d.handle,
                       if d.out == Ok(true) then Some(ClaimHeld(pc.requestHash, pc.receiptId)) else None);
    }
  }

  lemma BeginKeepsOwn(s: System, call: nat, enabled: bool, now: Instant, fault: Fault)
    requires Own(s)
    ensures Own(ApplyBegin(s, call, enabled, now, fault))
  {
    if call in s.calls && s.calls[call].pc.ClaimHeld? && enabled {
      var pc := s.calls[call].pc;
      var h := HandleOf(s, s.calls[call].process);
      var d := BeginSpec(h, pc.receiptId, pc.requestHash, ClientOrderId(pc.requestHash), now, fault);
      BeginLocal(h, s.orders, pc.receiptId, pc.requestHash, ClientOrderId(pc.requestHash), now, fault);
      TransactionKeeps(s, call, pc.requestHash, d.handle,
                       if d.out.Ok? then Some(Cleared(pc.requestHash, pc.receiptId)) else None);
    }
  }

  lemma BookKeepsKnown(orders: map<string, string>, clientOrderId: string, accepted: Option<string>)
    ensures forall h, id :: Known(orders, h, id) ==> Known(Book(orders, clientOrderId, accepted), h, id)
  {
  }

  lemma AnswerIsOpen(s: System, call: nat, accepted: Option<string>, reply: Option<Reply>)
    requires call in s.calls && s.calls[call].pc.Cleared? && OpenOk(s.db, s.orders, s.calls[call].pc)
    requires Honest(s, Send(call, accepted, reply))
    ensures var t := ApplySend(s, call, accepted, reply); OpenOk(t.db, t.orders, t.calls[call].pc)
  {
  }

  lemma SendKeepsOwn(s: System, call: nat, accepted: Option<string>, reply: Option<Reply>)
    requires Own(s) && Honest(s, Send(call, accepted, reply))
    ensures Own(ApplySend(s, call, accepted, reply))
  {
    if call in s.calls && s.calls[call].pc.Cleared? {
      var t := ApplySend(s, call, accepted, reply);
      BookKeepsKnown(s.orders, ClientOrderId(s.calls[call].pc.requestHash), accepted);
      AnswerIsOpen(s, call, accepted, reply);
      forall c | c in t.calls && c != call ensures OpenOk(t.db, t.orders, t.calls[c].pc) {
        assert OpenOk(s.db, s.orders, s.calls[c].pc);
      }
    }
  }

  lemma MarkSubmittedKeepsOwn(s: System, call: nat, now: Instant, fault: Fault)
    requires Inv(s) && Own(s)
    ensures Own(ApplyMarkSubmitted(s, call, now, fault))
  {
    if call in s.calls && s.calls[call].pc.Answered? && s.calls[call].pc.identity.Some? {
      var pc := s.calls[call].pc;
      var d := Finish(s, call, Accepted(pc.identity.value), now, fault);
      SoleAttempt(s, call);
      FinishLocal(HandleOf(s, s.calls[call].process), s.orders, pc.receiptId, pc.requestHash, ClientOrderId(pc.requestHash),
                  Accepted(pc.identity.value), now, fault);
      TransactionKeeps(s, call, pc.requestHash, d.handle,
                       if d.out.Ok? then None else Some(Answered(pc.requestHash, pc.receiptId, None)));
    }
  }

  lemma MarkUncertainKeepsOwn(s: System, call: nat, errorType: string, now: Instant, fault: Fault)
    requires Inv(s) && Own(s)
    ensures Own(ApplyMarkUncertain(s, call, errorType, now, fault))
  {
    if call in s.calls && s.calls[call].pc.Answered? && s.calls[call].pc.identity.None? {
      var pc := s.calls[call].pc;
      SoleAttempt(s, call);
      FinishLocal(HandleOf(s, s.calls[call].process), s.orders, pc.receiptId, pc.requestHash, ClientOrderId(pc.requestHash),
                  Unknown(errorType), now, fault);
      TransactionKeeps(s, call, pc.requestHash, Finish(s, call, Unknown(errorType), now, fault).handle, None);
    }
  }

  lemma ReconcilerKeepsOwn(s: System, call: nat, now: Instant, fault: Fault)
    requires Own(s)
    ensures Own(ApplyResolveClaim(s, call, now, fault)) && Own(ApplyRecordOrder(s, call, now, fault))
  {
    if call in s.calls && (s.calls[call].pc.RecordRead? || s.calls[call].pc.OrderFound?) {
      var pc, h := s.calls[call].pc, HandleOf(s, s.calls[call].process);
      var resolution := if pc.OrderFound? then BrokerOrderFound else NotSubmitted;
      var id := if pc.OrderFound? then Some(pc.brokerOrderId) else None;
      ReconcileLocal(h, s.orders, pc.requestHash, resolution, id, now, fault);
      TransactionKeeps(s, call, pc.requestHash, ReconcileSpec(h, pc.requestHash, resolution, id, now, fault).handle, None);
    }
  }

  lemma LookupKeepsOwn(s: System, call: nat, reply: Option<Reply>)
    requires Own(s) && Honest(s, Lookup(call, reply))
    ensures Own(ApplyLookup(s, call, reply))
  {
  }

  lemma LocalKeepsOwn(s: System, e: Event)
    requires Own(s) && (e.Submit? || e.Reconcile? || e.Abandon? || e.Crash? || e.Close?)
    ensures Own(Apply(s, e))
  {
  }

  lemma ApplyKeepsOwn(s: System, e: Event)
    requires Inv(s) && Own(s) && Honest(s, e)
    ensures Own(Apply(s, e))
  {
    match e
    case Consume(call, now, token, fault) => ConsumeKeepsOwn(s, call, now, token, fault);
    case Begin(call, enabled, now, fault) => BeginKeepsOwn(s, call, enabled, now, fault);
    case Send(call, accepted, reply) => SendKeepsOwn(s, call, accepted, reply);
    case MarkSubmitted(call, now, fault) => MarkSubmittedKeepsOwn(s, call, now, fault);
    case MarkUncertain(call, errorType, now, fault) => MarkUncertainKeepsOwn(s, call, errorType, now, fault);
    case ResolveClaim(call, now, fault) => ReconcilerKeepsOwn(s, call, now, fault);
    case Lookup(call, reply) => LookupKeepsOwn(s, call, reply);
    case RecordOrder(call, now, fault) => ReconcilerKeepsOwn(s, call, now, fault);
    case _ => LocalKeepsOwn(s, e);
  }

  lemma {:induction false} RunKeepsOwn(s: System, events: seq<Event>)
    requires Inv(s) && Own(s) && HonestRun(s, events)
    ensures Inv(Run(s, events)) && Own(Run(s, events))
    decreases |events|
  {
    if events != [] {
      ApplyKeeps(s, events[0]);
      ApplyKeepsOwn(s, events[0]);
      RunKeepsOwn(Apply(s, events[0]), events[1..]);
    }
  }

  lemma InitialOwn(capacity: nat)
    ensures Inv(Initial(capacity)) && Own(Initial(capacity))
  {
  }

  /** With a broker that keeps one order per client order id, every broker id in the journal is that order's id. */
  lemma BrokerIdsAreTrue(capacity: nat, events: seq<Event>, requestHash: string)
    requires HonestRun(Initial(capacity), events)
    requires requestHash in Run(Initial(capacity), events).db.rows
    requires Run(Initial(capacity), events).db.rows[requestHash].brokerOrderId.Some?
    ensures var s := Run(Initial(capacity), events);
            && ClientOrderId(requestHash) in s.orders
            && s.db.rows[requestHash].brokerOrderId == Some(s.orders[ClientOrderId(requestHash)])
  {
    InitialOwn(capacity);
    RunKeepsOwn(Initial(capacity), events);
  }

  /** What recording the acceptance answers, in terms of the row and the claim. */
  ghost predicate AcceptanceAnswer(s: System, call: nat, now: Instant)
    requires call in s.calls && s.calls[call].pc.Answered? && s.calls[call].pc.identity.Some?
  {
    var pc := s.calls[call].pc;
    var d := Finish(s, call, Accepted(pc.identity.value), now, NoFault);
    && (d.out.Ok? <==> pc.requestHash in Claims(s, s.calls[call].process) && '\0' !in pc.identity.value)
    && (d.out.Ok? ==>
          && pc.requestHash in s.db.rows && pc.requestHash in d.handle.db.rows
          && d.handle.db.rows[pc.requestHash] == d.out.value
          && d.out.value.brokerOrderId == pc.identity
          && d.out.value.state == (if s.db.rows[pc.requestHash].state == Submitting then Submitted else Reconciled)
          && (s.db.rows[pc.requestHash].state == Reconciled ==> d.out.value == s.db.rows[pc.requestHash]))
  }

  /** The row of an answered call was attempted, and only a reconciler that found this very order can have settled it. */
  predicate AttemptedRow(db: Db, pc: Pc)
    requires pc.Answered? && pc.identity.Some?
  {
    && Attempted(db, pc.requestHash, pc.receiptId) && db.rows[pc.requestHash].requestHash == pc.requestHash
    && RowInv(db.rows[pc.requestHash]) && db.rows[pc.requestHash].state in {Submitting, Reconciled}
    && (db.rows[pc.requestHash].brokerOrderId.Some? ==> db.rows[pc.requestHash].brokerOrderId == pc.identity)
    && BoundedId(pc.identity.value)
  }

  lemma AnsweredWasAttempted(s: System, call: nat)
    requires Inv(s) && Own(s)
    requires call in s.calls && s.calls[call].pc.Answered? && s.calls[call].pc.identity.Some?
    ensures AttemptedRow(s.db, s.calls[call].pc)
  {
    var pc := s.calls[call].pc;
    assert PcOk(s.db, s.sent, pc) && OpenOk(s.db, s.orders, pc);
    var row := s.db.rows[pc.requestHash];
    assert row.brokerOrderId.Some? ==> Known(s.orders, pc.requestHash, row.brokerOrderId.value);
  }

  /** With the claim held, such a row is finished or, if a reconciler came first, handed back. */
  lemma FinishAnswers(h: Handle, pc: Pc, now: Instant)
    requires pc.Answered? && pc.identity.Some? && AttemptedRow(h.db, pc) && ClockOk(h.db, now)
    requires pc.requestHash in h.owned ==> ClaimOk(h.db, pc.requestHash, h.owned[pc.requestHash])
    ensures var row := h.db.rows[pc.requestHash];
            var d := FinishSpec(h, pc.receiptId, pc.requestHash, ClientOrderId(pc.requestHash), Accepted(pc.identity.value),
                                now, NoFault);
            if pc.requestHash !in h.owned || '\0' in pc.identity.value then d.out.Err?
            else
              var ended := if row.state == Submitting then FinishedRow(row, Accepted(pc.identity.value), now) else row;
              d.out == Ok(ended) && pc.requestHash in d.handle.db.rows && d.handle.db.rows[pc.requestHash] == ended
  {
  }

  lemma AcceptanceIsRecorded(s: System, call: nat, now: Instant)
    requires Inv(s) && Own(s)
    requires call in s.calls && s.calls[call].pc.Answered? && s.calls[call].pc.identity.Some?
    requires ClockOk(s.db, now)
    ensures AcceptanceAnswer(s, call, now)
  {
    var pc := s.calls[call].pc;
    AnsweredWasAttempted(s, call);
    if pc.requestHash in Claims(s, s.calls[call].process) {
      assert ClaimOk(s.db, pc.requestHash, Claims(s, s.calls[call].process)[pc.requestHash]);
    }
    FinishAnswers(HandleOf(s, s.calls[call].process), pc, now);
  }

  /**
   * After the broker answered, recording the acceptance succeeds exactly when this process still holds its
   * claim and the id has no NUL (the adapter admits one, the journal does not) - whatever reconcilers did in
   * the meantime; and an order a reconciler recorded first is returned unchanged.
   */
  lemma MarkSubmittedSucceedsIffClaimHeld(capacity: nat, events: seq<Event>, call: nat, now: Instant)
    requires HonestRun(Initial(capacity), events)
    requires var s := Run(Initial(capacity), events);
             call in s.calls && s.calls[call].pc.Answered? && s.calls[call].pc.identity.Some? && ClockOk(s.db, now)
    ensures AcceptanceAnswer(Run(Initial(capacity), events), call, now)
  {
    InitialOwn(capacity);
    RunKeepsOwn(Initial(capacity), events);
    AcceptanceIsRecorded(Run(Initial(capacity), events), call, now);
  }

  // ----- which runs keep the claim -----

  /** A call of process `p` about request `h`. */
  predicate ByProcess(s: System, call: nat, p: nat, h: string) {
    call in s.calls && s.calls[call].process == p && s.calls[call].pc.requestHash == h
  }

  /**
   * What takes the claim on `h` from process `p`: its crash or close, its own mark, or its own reconciliation of an
   * open row; an exception after a commit leaves the claim where it is.
   */
  predicate Drops(s: System, e: Event, p: nat, h: string) {
    match e
    case Crash(q) => q == p
    case Close(q) => q == p
    case MarkSubmitted(call, now, fault) =>
      ByProcess(s, call, p, h) && s.calls[call].pc.Answered? && s.calls[call].pc.identity.Some?
      && Finish(s, call, Accepted(s.calls[call].pc.identity.value), now, fault).out.Ok?
    case MarkUncertain(call, errorType, now, fault) =>
      ByProcess(s, call, p, h) && s.calls[call].pc.Answered? && s.calls[call].pc.identity.None?
      && Finish(s, call, Unknown(errorType), now, fault).out.Ok?
    case ResolveClaim(call, now, fault) =>
      ByProcess(s, call, p, h) && s.calls[call].pc.RecordRead? && s.calls[call].pc.state == Claimed
      && h in s.db.rows && s.db.rows[h].state == Claimed
      && ReconcileSpec(HandleOf(s, p), h, NotSubmitted, None, now, fault).out.Ok?
    case RecordOrder(call, now, fault) =>
      ByProcess(s, call, p, h) && s.calls[call].pc.OrderFound?
      && h in s.db.rows && s.db.rows[h].state in {Submitting, Uncertain, Submitted}
      && ReconcileSpec(HandleOf(s, p), h, BrokerOrderFound, Some(s.calls[call].pc.brokerOrderId), now, fault).out.Ok?
    case _ => false
  }

  predicate NeverDrops(s: System, events: seq<Event>, p: nat, h: string)
    decreases |events|
  {
    events == [] || (!Drops(s, events[0], p, h) && NeverDrops(Apply(s, events[0]), events[1..], p, h))
  }

  lemma ClaimAfterReconcile(h: Handle, key: string, requestHash: string, resolution: Resolution, id: Option<string>,
                            now: Instant, fault: Fault)
    requires key in h.owned
    ensures var d := ReconcileSpec(h, requestHash, resolution, id, now, fault);
            key in d.handle.owned
            <==> !(requestHash == key && d.out.Ok? && h.db.rows[key].state in EligibleStates(resolution))
  {
  }

  lemma ClaimAfterFinish(h: Handle, key: string, receiptId: string, requestHash: string, clientOrderId: string, ending: Ending,
                         now: Instant, fault: Fault)
    requires key in h.owned
    ensures var d := FinishSpec(h, receiptId, requestHash, clientOrderId, ending, now, fault);
            key in d.handle.owned <==> !(requestHash == key && d.out.Ok?)
  {
  }

  lemma ClaimAfterMark(s: System, e: Event, p: nat, h: string)
    requires h in Claims(s, p) && (e.MarkSubmitted? || e.MarkUncertain?)
    ensures h in Claims(Apply(s, e), p) <==> !Drops(s, e, p, h)
  {
    if e.call in s.calls && s.calls[e.call].pc.Answered? && s.calls[e.call].process == p {
      var pc := s.calls[e.call].pc;
      var ending := if e.MarkUncertain? then Unknown(e.errorType)
                    else Accepted(if pc.identity.Some? then pc.identity.value else "");
      ClaimAfterFinish(HandleOf(s, p), h, pc.receiptId, pc.requestHash, ClientOrderId(pc.requestHash), ending, e.now, e.fault);
    }
  }

  lemma ClaimAfterReconciler(s: System, e: Event, p: nat, h: string)
    requires h in Claims(s, p) && (e.ResolveClaim? || e.RecordOrder?)
    ensures h in Claims(Apply(s, e), p) <==> !Drops(s, e, p, h)
  {
    if e.call in s.calls && s.calls[e.call].process == p {
      var pc := s.calls[e.call].pc;
      if pc.OrderFound? {
        ClaimAfterReconcile(HandleOf(s, p), h, pc.requestHash, BrokerOrderFound, Some(pc.brokerOrderId), e.now, e.fault);
      } else if pc.RecordRead? {
        ClaimAfterReconcile(HandleOf(s, p), h, pc.requestHash, NotSubmitted, None, e.now, e.fault);
      }
    }
  }

  lemma ConsumeKeepsClaims(h: Handle, receiptId: string, requestHash: string, expiry: Instant, now: Instant, token: string,
                           capacity: nat, fault: Fault, key: string)
    requires key in h.owned
    ensures key in ConsumeSpec(h, receiptId, requestHash, expiry, now, token, capacity, fault).handle.owned
  {
  }

  lemma ClaimAfterConsume(s: System, e: Event, p: nat, h: string)
    requires h in Claims(s, p) && e.Consume?
    ensures h in Claims(Apply(s, e), p)
  {
    if e.call in s.calls && s.calls[e.call].pc.Authorized? {
      var pc := s.calls[e.call].pc;
      if s.calls[e.call].process == p {
        ConsumeKeepsClaims(HandleOf(s, p), pc.receiptId, pc.requestHash, pc.expiry, e.now, e.token, s.capacity, e.fault, h);
      }
    }
  }

  lemma ClaimAfterBegin(s: System, e: Event, p: nat, h: string)
    requires h in Claims(s, p) && e.Begin?
    ensures h in Claims(Apply(s, e), p)
  {
    if e.call in s.calls && s.calls[e.call].pc.ClaimHeld? {
      var pc := s.calls[e.call].pc;
      BeginShape(HandleOf(s, s.calls[e.call].process), pc.receiptId, pc.requestHash, ClientOrderId(pc.requestHash), e.now, e.fault);
    }
  }

  lemma ClaimAfterOther(s: System, e: Event, p: nat, h: string)
    requires h in Claims(s, p) && !e.MarkSubmitted? && !e.MarkUncertain? && !e.ResolveClaim? && !e.RecordOrder?
    requires !e.Consume? && !e.Begin?
    ensures h in Claims(Apply(s, e), p) <==> !Drops(s, e, p, h)
  {
  }

  /** One step takes the claim exactly when it is one of those. */
  lemma ClaimAfterStep(s: System, e: Event, p: nat, h: string)
    requires h in Claims(s, p)
    ensures h in Claims(Apply(s, e), p) <==> !Drops(s, e, p, h)
  {
    if e.MarkSubmitted? || e.MarkUncertain? {
      ClaimAfterMark(s, e, p, h);
    } else if e.ResolveClaim? || e.RecordOrder? {
      ClaimAfterReconciler(s, e, p, h);
    } else if e.Consume? {
      ClaimAfterConsume(s, e, p, h);
    } else if e.Begin? {
      ClaimAfterBegin(s, e, p, h);
    } else {
      ClaimAfterOther(s, e, p, h);
    }
  }

  lemma MarksClaimNothing(s: System, e: Event, p: nat, h: string)
    requires e.MarkSubmitted? || e.MarkUncertain? || e.Begin?
    ensures h in Claims(Apply(s, e), p) ==> h in Claims(s, p) && Claims(Apply(s, e), p)[h] == Claims(s, p)[h]
  {
  }

  lemma OthersClaimNothing(s: System, e: Event, p: nat, h: string)
    requires !e.Consume? && !e.MarkSubmitted? && !e.MarkUncertain? && !e.Begin?
    ensures h in Claims(Apply(s, e), p) ==> h in Claims(s, p) && Claims(Apply(s, e), p)[h] == Claims(s, p)[h]
  {
  }

  lemma ConsumeAddsOne(h: Handle, receiptId: string, requestHash: string, expiry: Instant, now: Instant, token: string,
                       capacity: nat, fault: Fault, key: string)
    requires key in ConsumeSpec(h, receiptId, requestHash, expiry, now, token, capacity, fault).handle.owned
    ensures key in h.owned || (key == requestHash && !Collides(h.db.rows, receiptId, requestHash))
  {
  }

  lemma ConsumeClaimsOnce(s: System, call: nat, now: Instant, token: string, fault: Fault, p: nat, h: string)
    requires Inv(s) && h in s.db.rows && h in Claims(ApplyConsume(s, call, now, token, fault), p)
    ensures h in Claims(s, p)
  {
    if call in s.calls && s.calls[call].pc.Authorized? && s.calls[call].process == p {
      var pc := s.calls[call].pc;
      ConsumeAddsOne(HandleOf(s, p), pc.receiptId, pc.requestHash, pc.expiry, now, token, s.capacity, fault, h);
      assert s.db.rows[h].requestHash == h;
    }
  }

  /** A lost claim does not come back: the row is there, and a second claim collides with it. */
  lemma NotReclaimed(s: System, e: Event, p: nat, h: string)
    requires Inv(s) && h in s.db.rows && h !in Claims(s, p)
    ensures h !in Claims(Apply(s, e), p)
  {
    if e.Consume? {
      if h in Claims(Apply(s, e), p) {
        ConsumeClaimsOnce(s, e.call, e.now, e.token, e.fault, p, h);
      }
    } else if e.MarkSubmitted? || e.MarkUncertain? || e.Begin? {
      MarksClaimNothing(s, e, p, h);
    } else {
      OthersClaimNothing(s, e, p, h);
    }
  }

  lemma {:induction false} ClaimLostForGood(s: System, events: seq<Event>, p: nat, h: string)
    requires Inv(s) && h in s.db.rows && h !in Claims(s, p)
    ensures h !in Claims(Run(s, events), p)
    decreases |events|
  {
    if events != [] {
      NotReclaimed(s, events[0], p, h);
      ApplyKeeps(s, events[0]);
      ClaimLostForGood(Apply(s, events[0]), events[1..], p, h);
    }
  }

  /**
   * A claim survives a run exactly when its process neither crashed nor closed, and neither marked the attempt nor
   * itself reconciled the open row; what other processes do to the row does not matter.
   */
  lemma {:induction false} ClaimSurvivesExactlyWhen(s: System, events: seq<Event>, p: nat, h: string)
    requires Inv(s) && h in s.db.rows && h in Claims(s, p)
    ensures h in Claims(Run(s, events), p) <==> NeverDrops(s, events, p, h)
    decreases |events|
  {
    if events != [] {
      ClaimAfterStep(s, events[0], p, h);
      ApplyKeeps(s, events[0]);
      if Drops(s, events[0], p, h) {
        ClaimLostForGood(Apply(s, events[0]), events[1..], p, h);
      } else {
        ClaimSurvivesExactlyWhen(Apply(s, events[0]), events[1..], p, h);
      }
    }
  }

  /**
   * From any point at which the claim is held, the acceptance of an answered call is recorded exactly when nothing
   * since has taken the claim, and the id has no NUL.
   */
  lemma AcceptanceIsRecordedExactlyWhen(capacity: nat, before: seq<Event>, since: seq<Event>, call: nat, now: Instant)
    requires HonestRun(Initial(capacity), before + since)
    requires var s := Run(Initial(capacity), before + since);
             call in s.calls && s.calls[call].pc.Answered? && s.calls[call].pc.identity.Some? && ClockOk(s.db, now)
    requires var s := Run(Initial(capacity), before + since);
             s.calls[call].pc.requestHash in Claims(Run(Initial(capacity), before), s.calls[call].process)
    ensures var s := Run(Initial(capacity), before + since);
            var pc := s.calls[call].pc;
            Finish(s, call, Accepted(pc.identity.value), now, NoFault).out.Ok?
            <==> NeverDrops(Run(Initial(capacity), before), since, s.calls[call].process, pc.requestHash)
                 && '\0' !in pc.identity.value
  {
    var s0, s := Run(Initial(capacity), before), Run(Initial(capacity), before + since);
    RunAppend(Initial(capacity), before, since);
    InitialOwn(capacity);
    RunKeepsOwn(Initial(capacity), before);
    var p, h := s.calls[call].process, s.calls[call].pc.requestHash;
    assert ClaimOk(s0.db, h, Claims(s0, p)[h]);
    ClaimSurvivesExactlyWhen(s0, since, p, h);
    MarkSubmittedSucceedsIffClaimHeld(capacity, before + since, call, now);
  }

  // ----- the claim is read before the transaction -----

  /** Recording the acceptance with the claim as it was read some time earlier. */
  function FinishAsRead(s: System, call: nat, read: Option<string>, now: Instant): Done<Row>
    requires call in s.calls && s.calls[call].pc.Answered? && s.calls[call].pc.identity.Some?
  {
    var pc := s.calls[call].pc;
    var owned := if read.Some? then map[pc.requestHash := read.value] else map[];
    FinishSpec(Handle(s.db, owned), pc.receiptId, pc.requestHash, ClientOrderId(pc.requestHash), Accepted(pc.identity.value),
               now, NoFault)
  }

  function ReadClaim(s: System, p: nat, h: string): Option<string> {
    if h in Claims(s, p) then Some(Claims(s, p)[h]) else None
  }

  /**
   * Whenever the claim was read, before the transaction or in it, recording succeeds exactly when it was held then
   * and the id has no NUL: a reconciler that slips in between changes the row that is returned, not the answer.
   * A handle closed in between meets a fault instead.
   */
  lemma MarkUsesClaimAsRead(capacity: nat, before: seq<Event>, since: seq<Event>, call: nat, now: Instant)
    requires HonestRun(Initial(capacity), before + since)
    requires var s := Run(Initial(capacity), before + since);
             call in s.calls && s.calls[call].pc.Answered? && s.calls[call].pc.identity.Some? && ClockOk(s.db, now)
    ensures var s0, s := Run(Initial(capacity), before), Run(Initial(capacity), before + since);
            var pc := s.calls[call].pc;
            var read := ReadClaim(s0, s.calls[call].process, pc.requestHash);
            FinishAsRead(s, call, read, now).out.Ok? <==> read.Some? && '\0' !in pc.identity.value
  {
    var s0, s := Run(Initial(capacity), before), Run(Initial(capacity), before + since);
    RunAppend(Initial(capacity), before, since);
    InitialOwn(capacity);
    RunKeepsOwn(Initial(capacity), before);
    RunKeepsOwn(s0, since);
    RunKeeps(s0, since);
    var pc := s.calls[call].pc;
    var read := ReadClaim(s0, s.calls[call].process, pc.requestHash);
    if read.Some? {
      assert ClaimOk(s0.db, pc.requestHash, read.value);
      assert RowAdvances(s0.db.rows[pc.requestHash], s.db.rows[pc.requestHash]);
      ReadClaimIsEnough(s, call, read.value, now);
    }
  }

  /** Beginning the attempt with the claim as it was read some time earlier. */
  function BeginAsRead(s: System, requestHash: string, receiptId: string, read: Option<string>, now: Instant): Done<Row> {
    var owned := if read.Some? then map[requestHash := read.value] else map[];
    BeginSpec(Handle(s.db, owned), receiptId, requestHash, ClientOrderId(requestHash), now, NoFault)
  }

  predicate StillClaimed(db: Db, requestHash: string, receiptId: string) {
    requestHash in db.rows && db.rows[requestHash].state == Claimed && db.rows[requestHash].receiptId == receiptId
  }

  ghost predicate ReadOk(s: System, p: nat, h: string) {
    h in Claims(s, p) ==> ClaimOk(s.db, h, Claims(s, p)[h])
  }

  lemma ClaimAdvances(a: Db, b: Db, h: string, token: string)
    requires DbAdvances(a, b) && ClaimOk(a, h, token)
    ensures ClaimOk(b, h, token)
  {
    assert RowAdvances(a.rows[h], b.rows[h]);
  }

  lemma ConsumeWritesItsToken(h: Handle, receiptId: string, requestHash: string, expiry: Instant, now: Instant, token: string,
                              capacity: nat, fault: Fault, key: string)
    requires key in ConsumeSpec(h, receiptId, requestHash, expiry, now, token, capacity, fault).handle.owned
    ensures var d := ConsumeSpec(h, receiptId, requestHash, expiry, now, token, capacity, fault).handle;
            (key in h.owned && d.owned[key] == h.owned[key]) || ClaimOk(d.db, key, d.owned[key])
  {
  }

  lemma ConsumeKeepsRead(s: System, e: Event, p: nat, h: string)
    requires Inv(s) && ReadOk(s, p, h) && e.Consume?
    ensures ReadOk(Apply(s, e), p, h)
  {
    var t := Apply(s, e);
    ApplyKeeps(s, e);
    if h in Claims(t, p) {
      if e.call in s.calls && s.calls[e.call].pc.Authorized? && s.calls[e.call].process == p {
        var pc := s.calls[e.call].pc;
        ConsumeWritesItsToken(HandleOf(s, p), pc.receiptId, pc.requestHash, pc.expiry, e.now, e.token, s.capacity, e.fault, h);
      }
      if h in Claims(s, p) && Claims(t, p)[h] == Claims(s, p)[h] {
        ClaimAdvances(s.db, t.db, h, Claims(s, p)[h]);
      }
    }
  }

  lemma StepKeepsRead(s: System, e: Event, p: nat, h: string)
    requires Inv(s) && ReadOk(s, p, h)
    ensures ReadOk(Apply(s, e), p, h)
  {
    if e.Consume? {
      ConsumeKeepsRead(s, e, p, h);
    } else {
      ApplyKeeps(s, e);
      if e.MarkSubmitted? || e.MarkUncertain? || e.Begin? {
        MarksClaimNothing(s, e, p, h);
      } else {
        OthersClaimNothing(s, e, p, h);
      }
      if h in Claims(Apply(s, e), p) {
        ClaimAdvances(s.db, Apply(s, e).db, h, Claims(s, p)[h]);
      }
    }
  }

  lemma {:induction false} RunKeepsRead(s: System, events: seq<Event>, p: nat, h: string)
    requires Inv(s) && ReadOk(s, p, h)
    ensures ReadOk(Run(s, events), p, h)
    decreases |events|
  {
    if events != [] {
      StepKeepsRead(s, events[0], p, h);
      ApplyKeeps(s, events[0]);
      RunKeepsRead(Apply(s, events[0]), events[1..], p, h);
    }
  }

  lemma BeginNeedsClaimedRow(s: System, requestHash: string, receiptId: string, token: string, now: Instant)
    requires Inv(s) && ClockOk(s.db, now) && ClaimOk(s.db, requestHash, token)
    ensures BeginAsRead(s, requestHash, receiptId, Some(token), now).out.Ok? <==> StillClaimed(s.db, requestHash, receiptId)
  {
    if StillClaimed(s.db, requestHash, receiptId) {
      assert RowInv(s.db.rows[requestHash]);
      BegunRowKeeps(s.db.rows[requestHash], now);
    }
  }

  /**
   * The attempt, too, is begun with a claim that was read earlier: whenever that was, in any run and with any broker, it
   * begins exactly when the claim was held then and its row is claimed still, so an early reading lets nothing begin twice.
   */
  lemma BeginUsesClaimAsRead(capacity: nat, before: seq<Event>, since: seq<Event>, p: nat, requestHash: string,
                             receiptId: string, now: Instant)
    requires ClockOk(Run(Run(Initial(capacity), before), since).db, now)
    ensures var s0 := Run(Initial(capacity), before);
            var s := Run(s0, since);
            BeginAsRead(s, requestHash, receiptId, ReadClaim(s0, p, requestHash), now).out.Ok?
            <==> requestHash in Claims(s0, p) && StillClaimed(s.db, requestHash, receiptId)
  {
    var s0 := Run(Initial(capacity), before);
    InitialInv(capacity);
    RunKeeps(Initial(capacity), before);
    RunKeepsRead(Initial(capacity), before, p, requestHash);
    RunKeeps(s0, since);
    if requestHash in Claims(s0, p) {
      ClaimAdvances(s0.db, Run(s0, since).db, requestHash, Claims(s0, p)[requestHash]);
      BeginNeedsClaimedRow(Run(s0, since), requestHash, receiptId, Claims(s0, p)[requestHash], now);
    }
  }

  lemma ReadClaimIsEnough(s: System, call: nat, token: string, now: Instant)
    requires Inv(s) && Own(s) && ClockOk(s.db, now)
    requires call in s.calls && s.calls[call].pc.Answered? && s.calls[call].pc.identity.Some?
    requires ClaimOk(s.db, s.calls[call].pc.requestHash, token)
    ensures FinishAsRead(s, call, Some(token), now).out.Ok? <==> '\0' !in s.calls[call].pc.identity.value
  {
    var pc := s.calls[call].pc;
    AnsweredWasAttempted(s, call);
    FinishAnswers(Handle(s.db, map[pc.requestHash := token]), pc, now);
  }

  lemma RunStep(s: System, events: seq<Event>, e: Event, rest: seq<Event>, t: System)
    requires events == [e] + rest && t == Apply(s, e)
    ensures Run(s, events) == Run(t, rest)
    ensures HonestRun(s, events) == (Honest(s, e) && HonestRun(t, rest))
  {
    assert events[1..] == rest;
  }

  lemma {:induction false} RunAppend(s: System, a: seq<Event>, b: seq<Event>)
    ensures Run(s, a + b) == Run(Run(s, a), b)
    ensures HonestRun(s, a + b) <==> HonestRun(s, a) && HonestRun(Run(s, a), b)
    decreases |a|
  {
    if a == [] {
      assert a + b == b;
    } else {
      RunStep(s, a + b, a[0], a[1..] + b, Apply(s, a[0]));
      RunAppend(Apply(s, a[0]), a[1..], b);
    }
  }

  // ----- a reconciler on the submitter's own handle takes the claim away -----

  /** A submitter in process 0 is answered by the broker. */
  function Attempt(h: string, id: string): seq<Event> {
    [Submit(0, 0, h, "r", 9), Consume(0, 1, "t", NoFault), Begin(0, true, 2, NoFault),
     Send(0, Some(id), Some(Reply(id, ClientOrderId(h))))]
  }

  /** A reconciler records the same order, before the submitter does. */
  function Reconciliation(h: string, reconciler: nat): seq<Event> {
    [Reconcile(1, reconciler, h), Lookup(1, Some(Reply("b", ClientOrderId(h)))), RecordOrder(1, 3, NoFault)]
  }

  function Claim(h: string): Row {
    ClaimedRow("r", h, 9, "t", 1)
  }

  function HeldSystem(h: string): System {
    System(1, Db(map[h := Claim(h)], Some(1)), map[0 := map[h := "t"]], map[0 := Call(0, ClaimHeld(h, "r"))], [], map[])
  }

  function AnsweredSystem(h: string, id: string): System {
    System(1, Db(map[h := BegunRow(Claim(h), 2)], Some(2)), map[0 := map[h := "t"]],
           map[0 := Call(0, Answered(h, "r", Some(id)))], [Sent(h, "r")], map[ClientOrderId(h) := id])
  }

  function OvertakenRow(h: string): Row {
    ReconciledRow(BegunRow(Claim(h), 2), BrokerOrderFound, Some("b"), 3)
  }

  lemma ClaimStep(h: string)
    requires IsDigest(h)
    ensures Apply(Apply(Initial(1), Submit(0, 0, h, "r", 9)), Consume(0, 1, "t", NoFault)) == HeldSystem(h)
  {
    var s := Apply(Initial(1), Submit(0, 0, h, "r", 9));
    assert s.calls[0] == Call(0, Authorized(h, "r", 9));
    assert !Collides(s.db.rows, "r", h);
    var d := ConsumeSpec(HandleOf(s, 0), "r", h, 9, 1, "t", 1, NoFault);
    assert d.out == Ok(true);
  }

  lemma SubmitStep(h: string, id: string)
    requires IsDigest(h) && BoundedId(id)
    ensures Apply(Apply(HeldSystem(h), Begin(0, true, 2, NoFault)),
                  Send(0, Some(id), Some(Reply(id, ClientOrderId(h))))) == AnsweredSystem(h, id)
  {
    var s := HeldSystem(h);
    var d := BeginSpec(HandleOf(s, 0), "r", h, ClientOrderId(h), 2, NoFault);
    assert d.out == Ok(BegunRow(Claim(h), 2));
    var t := Apply(s, Begin(0, true, 2, NoFault));
    assert t.calls == map[0 := Call(0, Cleared(h, "r"))] && t.owned == s.owned;
  }

  function FoundSystem(h: string, reconciler: nat): System {
    var s := AnsweredSystem(h, "b");
    s.(calls := s.calls[1 := Call(reconciler, OrderFound(h, "b"))])
  }

  lemma LookupStep(h: string, reconciler: nat)
    requires IsDigest(h)
    ensures Apply(Apply(AnsweredSystem(h, "b"), Reconcile(1, reconciler, h)), Lookup(1, Some(Reply("b", ClientOrderId(h)))))
         == FoundSystem(h, reconciler)
  {
    var s := AnsweredSystem(h, "b");
    assert GetSpec(s.db, h) == Ok(Some(BegunRow(Claim(h), 2)));
    var t := Apply(s, Reconcile(1, reconciler, h));
    assert t.calls[1] == Call(reconciler, RecordRead(h, Submitting));
  }

  lemma RecordTransaction(h: string, owned: map<string, string>)
    requires IsDigest(h)
    ensures ReconcileSpec(Handle(AnsweredSystem(h, "b").db, owned), h, BrokerOrderFound, Some("b"), 3, NoFault)
            == Done(Handle(Db(map[h := OvertakenRow(h)], Some(3)), Drop(owned, h)), Ok(OvertakenRow(h)))
  {
    assert RecordOk(OvertakenRow(h));
    assert map[h := BegunRow(Claim(h), 2)][h := OvertakenRow(h)] == map[h := OvertakenRow(h)];
  }

  lemma RecordStep(h: string, reconciler: nat)
    requires IsDigest(h)
    ensures var s := Apply(FoundSystem(h, reconciler), RecordOrder(1, 3, NoFault));
            && s.db == Db(map[h := OvertakenRow(h)], Some(3))
            && 0 in s.calls && s.calls[0] == Call(0, Answered(h, "r", Some("b")))
            && (h in Claims(s, 0) <==> reconciler != 0)
  {
    RecordTransaction(h, HandleOf(FoundSystem(h, reconciler), reconciler).owned);
  }

  lemma AttemptEnds(h: string, id: string)
    requires IsDigest(h) && BoundedId(id)
    ensures HonestRun(Initial(1), Attempt(h, id)) && Run(Initial(1), Attempt(h, id)) == AnsweredSystem(h, id)
  {
    ClaimStep(h);
    SubmitStep(h, id);
    var e := Attempt(h, id);
    var s1, s3 := Apply(Initial(1), e[0]), Apply(HeldSystem(h), e[2]);
    RunStep(s3, e[3..], e[3], [], AnsweredSystem(h, id));
    RunStep(HeldSystem(h), e[2..], e[2], e[3..], s3);
    RunStep(s1, e[1..], e[1], e[2..], HeldSystem(h));
    RunStep(Initial(1), e, e[0], e[1..], s1);
  }

  lemma ReconciliationEnds(h: string, reconciler: nat)
    requires IsDigest(h)
    ensures HonestRun(AnsweredSystem(h, "b"), Reconciliation(h, reconciler))
    ensures Run(AnsweredSystem(h, "b"), Reconciliation(h, reconciler)) == Apply(FoundSystem(h, reconciler), RecordOrder(1, 3, NoFault))
  {
    LookupStep(h, reconciler);
    var e := Reconciliation(h, reconciler);
    var s1, s3 := Apply(AnsweredSystem(h, "b"), e[0]), Apply(FoundSystem(h, reconciler), e[2]);
    RunStep(FoundSystem(h, reconciler), e[2..], e[2], [], s3);
    RunStep(s1, e[1..], e[1], e[2..], FoundSystem(h, reconciler));
    RunStep(AnsweredSystem(h, "b"), e, e[0], e[1..], s1);
  }

  /** A reconciler that shares the submitter's handle makes its later mark fail; on any other handle it succeeds. */
  lemma OvertakenOnSameHandleFails(h: string, reconciler: nat)
    requires IsDigest(h)
    ensures var events := Attempt(h, "b") + Reconciliation(h, reconciler);
            var s := Run(Initial(1), events);
            && HonestRun(Initial(1), events)
            && 0 in s.calls && s.calls[0] == Call(0, Answered(h, "r", Some("b")))
            && s.db == Db(map[h := OvertakenRow(h)], Some(3))
            && (Finish(s, 0, Accepted("b"), 4, NoFault).out.Ok? <==> reconciler != 0)
  {
    var events := Attempt(h, "b") + Reconciliation(h, reconciler);
    AttemptEnds(h, "b");
    ReconciliationEnds(h, reconciler);
    RunAppend(Initial(1), Attempt(h, "b"), Reconciliation(h, reconciler));
    RecordStep(h, reconciler);
    MarkSubmittedSucceedsIffClaimHeld(1, events, 0, 4);
  }

  /** An id with a NUL passes the adapter, and the acceptance cannot be recorded although the claim is held. */
  lemma NulIdentityIsNotRecorded(h: string)
    requires IsDigest(h)
    ensures var s := Run(Initial(1), Attempt(h, "b\0"));
            && HonestRun(Initial(1), Attempt(h, "b\0"))
            && 0 in s.calls && s.calls[0] == Call(0, Answered(h, "r", Some("b\0"))) && h in Claims(s, 0)
            && Finish(s, 0, Accepted("b\0"), 4, NoFault).out.Err?
  {
    assert Utf8Length("b\0") <= 256 by {
      assert "b\0"[1..] == "\0" && "\0"[1..] == "";
    }
    AttemptEnds(h, "b\0");
    assert "b\0"[1] == '\0';
  }
}
