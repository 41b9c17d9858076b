/**
 * Every interleaving of processes that share one submission journal: submitters and reconcilers,
 * crashes and restarts, exceptions anywhere and on either side of a commit, and a broker that may accept an order and
 * then lose the answer.  An event carries all of its nondeterminism, so a run is a sequence of events.
 */
module SubmissionProtocol {
  import opened Basics
  import opened SubmissionJournal

  /** Where one call to the paper gateway stands; the gateway's own locals are its arguments. */
  datatype Pc =
    | Authorized(requestHash: string, receiptId: string, expiry: Instant)
    | ClaimHeld(requestHash: string, receiptId: string)
    | Cleared(requestHash: string, receiptId: string)
    | Answered(requestHash: string, receiptId: string, identity: Option<string>)
    | RecordRead(requestHash: string, state: State)
    | OrderFound(requestHash: string, brokerOrderId: string)

  datatype Call = Call(process: nat, pc: Pc)

  /** One call of the broker's submit_order. */
  datatype Sent = Sent(requestHash: string, receiptId: string)

  /**
   * The durable table, the volatile claims and calls of each process, the log of broker submissions, and
   * the broker's own book of orders by client order id.
   */
  datatype System = System(
    capacity: nat,
    db: Db,
    owned: map<nat, map<string, string>>,
    calls: map<nat, Call>,
    sent: seq<Sent>,
    orders: map<string, string>)

  datatype Reply = Reply(brokerOrderId: string, clientOrderId: string)

  datatype Event =
    | Submit(call: nat, process: nat, requestHash: string, receiptId: string, expiry: Instant)
    | Consume(call: nat, now: Instant, token: string, fault: Fault)
    | Begin(call: nat, enabled: bool, now: Instant, fault: Fault)
    | Send(call: nat, accepted: Option<string>, reply: Option<Reply>)
    | MarkSubmitted(call: nat, now: Instant, fault: Fault)
    | MarkUncertain(call: nat, errorType: string, now: Instant, fault: Fault)
    | Reconcile(call: nat, process: nat, requestHash: string)
    | ResolveClaim(call: nat, now: Instant, fault: Fault)
    | Lookup(call: nat, reply: Option<Reply>)
    | RecordOrder(call: nat, now: Instant, fault: Fault)
    | Abandon(call: nat)
    | Crash(process: nat)
    | Close(process: nat)

  function Initial(capacity: nat): System {
    System(capacity, Db(map[], None), map[], map[], [], map[])
  }

  function Claims(s: System, process: nat): map<string, string> {
    if process in s.owned then s.owned[process] else map[]
  }

  function HandleOf(s: System, process: nat): Handle {
    Handle(s.db, Claims(s, process))
  }

  /** The handle's view after one of its transactions, and where the call stands then. */
  function After(s: System, call: nat, h: Handle, next: Option<Pc>): System
    requires call in s.calls
  {
    var process := s.calls[call].process;
    s.(db := h.db,
       owned := s.owned[process := h.owned],
       calls := match next
                case None => Drop(s.calls, call)
                case Some(pc) => s.calls[call := Call(process, pc)])
  }

  /** The identity checks on a broker answer: a bounded, trimmed order id and the expected client order id. */
  function BrokerIdentity(reply: Option<Reply>, clientOrderId: string): Option<string> {
    if reply.Some? && Trimmed(reply.value.brokerOrderId) && Utf8Length(reply.value.brokerOrderId) <= 256
       && reply.value.clientOrderId == clientOrderId
    then Some(reply.value.brokerOrderId)
    else None
  }

  function Book(orders: map<string, string>, clientOrderId: string, accepted: Option<string>): map<string, string> {
    if accepted.Some? && clientOrderId !in orders then orders[clientOrderId := accepted.value] else orders
  }

  function Start(s: System, call: nat, process: nat, pc: Pc): System {
    if call in s.calls then s else s.(calls := s.calls[call := Call(process, pc)])
  }

  function Apply(s: System, e: Event): System {
    match e
    case Submit(call, process, requestHash, receiptId, expiry) =>
      Start(s, call, process, Authorized(requestHash, receiptId, expiry))
    case Consume(call, now, token, fault) => ApplyConsume(s, call, now, token, fault)
    case Begin(call, enabled, now, fault) => ApplyBegin(s, call, enabled, now, fault)
    case Send(call, accepted, reply) => ApplySend(s, call, accepted, reply)
    case MarkSubmitted(call, now, fault) => ApplyMarkSubmitted(s, call, now, fault)
    case MarkUncertain(call, errorType, now, fault) => ApplyMarkUncertain(s, call, errorType, now, fault)
    case Reconcile(call, process, requestHash) =>
      var got := GetSpec(s.db, requestHash);
      if got.Ok? && got.value.Some? then Start(s, call, process, RecordRead(requestHash, got.value.value.state)) else s
    case ResolveClaim(call, now, fault) => ApplyResolveClaim(s, call, now, fault)
    case Lookup(call, reply) => ApplyLookup(s, call, reply)
    case RecordOrder(call, now, fault) => ApplyRecordOrder(s, call, now, fault)
    case Abandon(call) => s.(calls := Drop(s.calls, call))
    case Crash(process) =>
      s.(owned := Drop(s.owned, process),
         calls := map c | c in s.calls && s.calls[c].process != process :: s.calls[c])
    case Close(process) => s.(owned := Drop(s.owned, process))
  }

  function ApplyConsume(s: System, call: nat, now: Instant, token: string, fault: Fault): System {
    if call in s.calls && s.calls[call].pc.Authorized? then
      var pc := s.calls[call].pc;
      var d := ConsumeSpec(HandleOf(s, s.calls[call].process), pc.receiptId, pc.requestHash, pc.expiry,
                           now, token, s.capacity, fault);
      After(s, call, d.handle, if d.out == Ok(true) then Some(ClaimHeld(pc.requestHash, pc.receiptId)) else None)
    else s
  }

  function ApplyBegin(s: System, call: nat, enabled: bool, now: Instant, fault: Fault): System {
    if call in s.calls && s.calls[call].pc.ClaimHeld? then
      var pc := s.calls[call].pc;
      if !enabled then s.(calls := Drop(s.calls, call))
      else
        var d := BeginSpec(HandleOf(s, s.calls[call].process), pc.receiptId, pc.requestHash,
                           ClientOrderId(pc.requestHash), now, fault);
        After(s, call, d.handle, if d.out.Ok? then Some(Cleared(pc.requestHash, pc.receiptId)) else None)
    else s
  }

  function ApplySend(s: System, call: nat, accepted: Option<string>, reply: Option<Reply>): System {
    if call in s.calls && s.calls[call].pc.Cleared? then
      var pc := s.calls[call].pc;
      var clientOrderId := ClientOrderId(pc.requestHash);
      s.(sent := s.sent + [Sent(pc.requestHash, pc.receiptId)],
         orders := Book(s.orders, clientOrderId, accepted),
         calls := s.calls[call := s.calls[call].(
           pc := Answered(pc.requestHash, pc.receiptId, BrokerIdentity(reply, clientOrderId)))])
    else s
  }

  function Finish(s: System, call: nat, ending: Ending, now: Instant, fault: Fault): Done<Row>
    requires call in s.calls && s.calls[call].pc.Answered?
  {
    var pc := s.calls[call].pc;
    FinishSpec(HandleOf(s, s.calls[call].process), pc.receiptId, pc.requestHash, ClientOrderId(pc.requestHash),
               ending, now, fault)
  }

  function ApplyMarkSubmitted(s: System, call: nat, now: Instant, fault: Fault): System {
    if call in s.calls && s.calls[call].pc.Answered? && s.calls[call].pc.identity.Some? then
      var pc := s.calls[call].pc;
      var d := Finish(s, call, Accepted(pc.identity.value), now, fault);
      After(s, call, d.handle, if d.out.Ok? then None else Some(Answered(pc.requestHash, pc.receiptId, None)))
    else s
  }

  /** An exception after the attempt began is recorded if possible; a failure to record it is suppressed. */
  function ApplyMarkUncertain(s: System, call: nat, errorType: string, now: Instant, fault: Fault): System {
    if call in s.calls && s.calls[call].pc.Answered? && s.calls[call].pc.identity.None? then
      After(s, call, Finish(s, call, Unknown(errorType), now, fault).handle, None)
    else s
  }

  function ApplyResolveClaim(s: System, call: nat, now: Instant, fault: Fault): System {
    if call in s.calls && s.calls[call].pc.RecordRead? && s.calls[call].pc.state == Claimed then
      var d := ReconcileSpec(HandleOf(s, s.calls[call].process), s.calls[call].pc.requestHash, NotSubmitted, None, now, fault);
      After(s, call, d.handle, None)
    else s
  }

  function ApplyLookup(s: System, call: nat, reply: Option<Reply>): System {
    if call in s.calls && s.calls[call].pc.RecordRead? && s.calls[call].pc.state !in {Claimed, Reconciled} then
      var requestHash := s.calls[call].pc.requestHash;
      var identity := BrokerIdentity(reply, ClientOrderId(requestHash));
      if identity.None? then s.(calls := Drop(s.calls, call))
      else s.(calls := s.calls[call := s.calls[call].(pc := OrderFound(requestHash, identity.value))])
    else s
  }

  function ApplyRecordOrder(s: System, call: nat, now: Instant, fault: Fault): System {
    if call in s.calls && s.calls[call].pc.OrderFound? then
      var pc := s.calls[call].pc;
      var d := ReconcileSpec(HandleOf(s, s.calls[call].process), pc.requestHash, BrokerOrderFound,
                             Some(pc.brokerOrderId), now, fault);
      After(s, call, d.handle, None)
    else s
  }

  /** The state after a whole run. */
  function Run(s: System, events: seq<Event>): System
    decreases |events|
  {
    if events == [] then s else Run(Apply(s, events[0]), events[1..])
  }

  // ----- the invariant -----

  /** This call may still be submitting, or has submitted without an accounted outcome, for this request. */
  predicate Attempts(pc: Pc, requestHash: string) {
    (pc.Cleared? || pc.Answered?) && pc.requestHash == requestHash
  }

  predicate Attempted(db: Db, requestHash: string, receiptId: string) {
    requestHash in db.rows && db.rows[requestHash].receiptId == receiptId && db.rows[requestHash].attempts == 1
  }

  predicate LogHas(sent: seq<Sent>, requestHash: string) {
    exists i :: 0 <= i < |sent| && sent[i].requestHash == requestHash
  }

  predicate PcOk(db: Db, sent: seq<Sent>, pc: Pc) {
    && (pc.Cleared? || pc.Answered? ==> Attempted(db, pc.requestHash, pc.receiptId))
    && (pc.Cleared? ==> !LogHas(sent, pc.requestHash))
  }

  ghost predicate CallsOk(db: Db, sent: seq<Sent>, calls: map<nat, Call>) {
    && (forall c :: c in calls ==> PcOk(db, sent, calls[c].pc))
    && (forall c, d :: c in calls && d in calls && c != d && (calls[c].pc.Cleared? || calls[c].pc.Answered?)
          ==> !Attempts(calls[d].pc, calls[c].pc.requestHash))
  }

  ghost predicate LogOk(db: Db, sent: seq<Sent>) {
    && (forall i :: 0 <= i < |sent| ==> Attempted(db, sent[i].requestHash, sent[i].receiptId))
    && (forall i, j :: 0 <= i < j < |sent| ==> sent[i].requestHash != sent[j].requestHash)
  }

  ghost predicate Inv(s: System) {
    DbInv(s.db) && CallsOk(s.db, s.sent, s.calls) && LogOk(s.db, s.sent)
  }

  lemma AdvanceKeeps(a: Db, b: Db, sent: seq<Sent>, calls: map<nat, Call>)
    requires DbInv(a) && DbInv(b) && DbAdvances(a, b) && CallsOk(a, sent, calls) && LogOk(a, sent)
    ensures CallsOk(b, sent, calls) && LogOk(b, sent)
  {
    forall h, r | Attempted(a, h, r)
      ensures Attempted(b, h, r)
    {
      assert RowAdvances(a.rows[h], b.rows[h]) && RowInv(b.rows[h]);
    }
  }

  lemma DropKeeps(db: Db, sent: seq<Sent>, calls: map<nat, Call>, call: nat)
    requires CallsOk(db, sent, calls)
    ensures CallsOk(db, sent, Drop(calls, call))
  {
  }

  lemma MoveKeeps(db: Db, sent: seq<Sent>, calls: map<nat, Call>, call: nat, next: Call)
    requires CallsOk(db, sent, calls) && PcOk(db, sent, next.pc)
    requires next.pc.Cleared? || next.pc.Answered? ==>
               forall d :: d in calls && d != call ==> !Attempts(calls[d].pc, next.pc.requestHash)
    ensures CallsOk(db, sent, calls[call := next])
  {
  }

  lemma ApplyConsumeKeeps(s: System, call: nat, now: Instant, token: string, fault: Fault)
    requires Inv(s)
    ensures Inv(ApplyConsume(s, call, now, token, fault))
    ensures DbAdvances(s.db, ApplyConsume(s, call, now, token, fault).db)
  {
    if call in s.calls && s.calls[call].pc.Authorized? {
      var pc, h := s.calls[call].pc, HandleOf(s, s.calls[call].process);
      var d := ConsumeSpec(h, pc.receiptId, pc.requestHash, pc.expiry, now, token, s.capacity, fault);
      ConsumeKeeps(h, pc.receiptId, pc.requestHash, pc.expiry, now, token, s.capacity, fault);
      AdvanceKeeps(s.db, d.handle.db, s.sent, s.calls);
      DropKeeps(d.handle.db, s.sent, s.calls, call);
      MoveKeeps(d.handle.db, s.sent, s.calls, call, Call(s.calls[call].process, ClaimHeld(pc.requestHash, pc.receiptId)));
    } else {
      ClockKeeps(s.db, now);
    }
  }

  lemma BegunKeeps(s: System, call: nat, now: Instant, fault: Fault)
    requires Inv(s) && call in s.calls && s.calls[call].pc.ClaimHeld?
    ensures Inv(ApplyBegin(s, call, true, now, fault))
    ensures DbAdvances(s.db, ApplyBegin(s, call, true, now, fault).db)
  {
    var pc, h := s.calls[call].pc, HandleOf(s, s.calls[call].process);
    var d := BeginSpec(h, pc.receiptId, pc.requestHash, ClientOrderId(pc.requestHash), now, fault);
    BeginKeeps(h, pc.receiptId, pc.requestHash, ClientOrderId(pc.requestHash), now, fault);
    AdvanceKeeps(s.db, d.handle.db, s.sent, s.calls);
    DropKeeps(d.handle.db, s.sent, s.calls, call);
    if d.out.Ok? {
      assert h.db.rows[pc.requestHash].attempts == 0;
      assert Attempted(d.handle.db, pc.requestHash, pc.receiptId);
      MoveKeeps(d.handle.db, s.sent, s.calls, call, Call(s.calls[call].process, Cleared(pc.requestHash, pc.receiptId)));
    }
  }

  lemma ApplyBeginKeeps(s: System, call: nat, enabled: bool, now: Instant, fault: Fault)
    requires Inv(s)
    ensures Inv(ApplyBegin(s, call, enabled, now, fault))
    ensures DbAdvances(s.db, ApplyBegin(s, call, enabled, now, fault).db)
  {
    if enabled && call in s.calls && s.calls[call].pc.ClaimHeld? {
      BegunKeeps(s, call, now, fault);
    } else {
      ClockKeeps(s.db, now);
      DropKeeps(s.db, s.sent, s.calls, call);
    }
  }

  lemma ApplySendKeeps(s: System, call: nat, accepted: Option<string>, reply: Option<Reply>)
    requires Inv(s)
    ensures Inv(ApplySend(s, call, accepted, reply))
  {
    if call in s.calls && s.calls[call].pc.Cleared? {
      var pc := s.calls[call].pc;
      var entry := Sent(pc.requestHash, pc.receiptId);
      var s' := ApplySend(s, call, accepted, reply);
      DropKeeps(s.db, s.sent, s.calls, call);
      LogGrows(s.db, s.sent, Drop(s.calls, call), entry);
      MoveKeeps(s.db, s'.sent, Drop(s.calls, call), call, s'.calls[call]);
      assert Drop(s.calls, call)[call := s'.calls[call]] == s'.calls;
    }
  }

  lemma LogGrows(db: Db, sent: seq<Sent>, calls: map<nat, Call>, entry: Sent)
    requires CallsOk(db, sent, calls) && LogOk(db, sent)
    requires Attempted(db, entry.requestHash, entry.receiptId) && !LogHas(sent, entry.requestHash)
    requires forall c :: c in calls ==> !Attempts(calls[c].pc, entry.requestHash)
    ensures CallsOk(db, sent + [entry], calls) && LogOk(db, sent + [entry])
  {
    forall h | LogHas(sent + [entry], h)
      ensures LogHas(sent, h) || h == entry.requestHash
    {
      var i :| 0 <= i < |sent + [entry]| && (sent + [entry])[i].requestHash == h;
      assert i < |sent| ==> sent[i].requestHash == h;
    }
  }

  lemma FinishCallKeeps(s: System, call: nat, ending: Ending, now: Instant, fault: Fault)
    requires Inv(s) && call in s.calls && s.calls[call].pc.Answered?
    ensures var d := Finish(s, call, ending, now, fault);
            && DbInv(d.handle.db) && DbAdvances(s.db, d.handle.db)
            && CallsOk(d.handle.db, s.sent, s.calls) && LogOk(d.handle.db, s.sent)
  {
    var pc := s.calls[call].pc;
    FinishKeeps(HandleOf(s, s.calls[call].process), pc.receiptId, pc.requestHash, ClientOrderId(pc.requestHash),
                ending, now, fault);
    AdvanceKeeps(s.db, Finish(s, call, ending, now, fault).handle.db, s.sent, s.calls);
  }

  lemma ApplyMarkSubmittedKeeps(s: System, call: nat, now: Instant, fault: Fault)
    requires Inv(s)
    ensures Inv(ApplyMarkSubmitted(s, call, now, fault))
    ensures DbAdvances(s.db, ApplyMarkSubmitted(s, call, now, fault).db)
  {
    if call in s.calls && s.calls[call].pc.Answered? && s.calls[call].pc.identity.Some? {
      var pc := s.calls[call].pc;
      var d := Finish(s, call, Accepted(pc.identity.value), now, fault);
      FinishCallKeeps(s, call, Accepted(pc.identity.value), now, fault);
      if d.out.Ok? {
        DropKeeps(d.handle.db, s.sent, s.calls, call);
      } else {
        MoveKeeps(d.handle.db, s.sent, s.calls, call,
                  Call(s.calls[call].process, Answered(pc.requestHash, pc.receiptId, None)));
      }
    } else {
      ClockKeeps(s.db, now);
    }
  }

  lemma ApplyMarkUncertainKeeps(s: System, call: nat, errorType: string, now: Instant, fault: Fault)
    requires Inv(s)
    ensures Inv(ApplyMarkUncertain(s, call, errorType, now, fault))
    ensures DbAdvances(s.db, ApplyMarkUncertain(s, call, errorType, now, fault).db)
  {
    if call in s.calls && s.calls[call].pc.Answered? && s.calls[call].pc.identity.None? {
      FinishCallKeeps(s, call, Unknown(errorType), now, fault);
      DropKeeps(Finish(s, call, Unknown(errorType), now, fault).handle.db, s.sent, s.calls, call);
    } else {
      ClockKeeps(s.db, now);
    }
  }

  lemma ReconcileCallKeeps(s: System, call: nat, requestHash: string, resolution: Resolution, id: Option<string>,
                           now: Instant, fault: Fault)
    requires Inv(s) && call in s.calls
    ensures var d := ReconcileSpec(HandleOf(s, s.calls[call].process), requestHash, resolution, id, now, fault);
            && DbInv(d.handle.db) && DbAdvances(s.db, d.handle.db)
            && CallsOk(d.handle.db, s.sent, Drop(s.calls, call)) && LogOk(d.handle.db, s.sent)
  {
    var h := HandleOf(s, s.calls[call].process);
    var d := ReconcileSpec(h, requestHash, resolution, id, now, fault);
    ReconcileKeeps(h, requestHash, resolution, id, now, fault);
    AdvanceKeeps(s.db, d.handle.db, s.sent, s.calls);
    DropKeeps(d.handle.db, s.sent, s.calls, call);
  }

  lemma ApplyResolveClaimKeeps(s: System, call: nat, now: Instant, fault: Fault)
    requires Inv(s)
    ensures Inv(ApplyResolveClaim(s, call, now, fault))
    ensures DbAdvances(s.db, ApplyResolveClaim(s, call, now, fault).db)
  {
    if call in s.calls && s.calls[call].pc.RecordRead? {
      ReconcileCallKeeps(s, call, s.calls[call].pc.requestHash, NotSubmitted, None, now, fault);
    }
    ClockKeeps(s.db, now);
  }

  lemma ApplyRecordOrderKeeps(s: System, call: nat, now: Instant, fault: Fault)
    requires Inv(s)
    ensures Inv(ApplyRecordOrder(s, call, now, fault))
    ensures DbAdvances(s.db, ApplyRecordOrder(s, call, now, fault).db)
  {
    if call in s.calls && s.calls[call].pc.OrderFound? {
      var pc := s.calls[call].pc;
      ReconcileCallKeeps(s, call, pc.requestHash, BrokerOrderFound, Some(pc.brokerOrderId), now, fault);
    } else {
      ClockKeeps(s.db, now);
    }
  }

  lemma ApplyLookupKeeps(s: System, call: nat, reply: Option<Reply>)
    requires Inv(s)
    ensures Inv(ApplyLookup(s, call, reply))
  {
    DropKeeps(s.db, s.sent, s.calls, call);
  }

  /** Events that touch neither the table nor the broker. */
  lemma LocalKeeps(s: System, e: Event)
    requires Inv(s) && (e.Submit? || e.Reconcile? || e.Abandon? || e.Crash? || e.Close?)
    ensures Inv(Apply(s, e)) && Apply(s, e).db == s.db
  {
    var s' := Apply(s, e);
    if e.Submit? {
      MoveKeeps(s.db, s.sent, s.calls, e.call, Call(e.process, Authorized(e.requestHash, e.receiptId, e.expiry)));
    } else if e.Reconcile? && s' != s {
      MoveKeeps(s.db, s.sent, s.calls, e.call, s'.calls[e.call]);
    } else {
      assert forall c :: c in s'.calls ==> c in s.calls && s'.calls[c] == s.calls[c];
    }
  }

  lemma ApplyKeeps(s: System, e: Event)
    requires Inv(s)
    ensures Inv(Apply(s, e)) && DbAdvances(s.db, Apply(s, e).db)
  {
    match e
    case Consume(call, now, token, fault) => ApplyConsumeKeeps(s, call, now, token, fault);
    case Begin(call, enabled, now, fault) => ApplyBeginKeeps(s, call, enabled, now, fault);
    case Send(call, accepted, reply) => ApplySendKeeps(s, call, accepted, reply); ClockKeeps(s.db, 0);
    case MarkSubmitted(call, now, fault) => ApplyMarkSubmittedKeeps(s, call, now, fault);
    case MarkUncertain(call, errorType, now, fault) => ApplyMarkUncertainKeeps(s, call, errorType, now, fault);
    case ResolveClaim(call, now, fault) => ApplyResolveClaimKeeps(s, call, now, fault);
    case Lookup(call, reply) => ApplyLookupKeeps(s, call, reply); ClockKeeps(s.db, 0);
    case RecordOrder(call, now, fault) => ApplyRecordOrderKeeps(s, call, now, fault);
    case _ => LocalKeeps(s, e); ClockKeeps(s.db, 0);
  }

  lemma {:induction false} RunKeeps(s: System, events: seq<Event>)
    requires Inv(s)
    ensures Inv(Run(s, events))
    ensures DbAdvances(s.db, Run(s, events).db)
    decreases |events|
  {
    ClockKeeps(s.db, 0);
    if events != [] {
      ApplyKeeps(s, events[0]);
      RunKeeps(Apply(s, events[0]), events[1..]);
      AdvancesTransitive(s.db, Apply(s, events[0]).db, Run(s, events).db);
    }
  }

  lemma AdvancesTransitive(a: Db, b: Db, c: Db)
    requires DbAdvances(a, b) && DbAdvances(b, c)
    ensures DbAdvances(a, c)
  {
  }

  // ----- only a claim adds rows -----

  lemma MarksAddNothing(s: System, e: Event)
    requires e.MarkSubmitted? || e.MarkUncertain?
    ensures forall h :: h in Apply(s, e).db.rows ==> h in s.db.rows
  {
  }

  lemma ReconcilersAddNothing(s: System, e: Event)
    requires e.ResolveClaim? || e.RecordOrder?
    ensures forall h :: h in Apply(s, e).db.rows ==> h in s.db.rows
  {
  }

  /** Only a claim adds rows. */
  lemma OnlyConsumeAdds(s: System, e: Event)
    ensures forall h :: h in Apply(s, e).db.rows ==>
              || h in s.db.rows
              || (e.Consume? && e.call in s.calls && s.calls[e.call].pc.Authorized? && h == s.calls[e.call].pc.requestHash)
  {
    if e.MarkSubmitted? || e.MarkUncertain? {
      MarksAddNothing(s, e);
    } else if e.ResolveClaim? || e.RecordOrder? {
      ReconcilersAddNothing(s, e);
    }
  }

  // ----- at most one broker call -----

  function CallsForRequest(sent: seq<Sent>, requestHash: string): nat {
    if sent == [] then 0
    else (if sent[|sent| - 1].requestHash == requestHash then 1 else 0) + CallsForRequest(sent[..|sent| - 1], requestHash)
  }

  function CallsForReceipt(sent: seq<Sent>, receiptId: string): nat {
    if sent == [] then 0
    else (if sent[|sent| - 1].receiptId == receiptId then 1 else 0) + CallsForReceipt(sent[..|sent| - 1], receiptId)
  }

  lemma {:induction false} NoCalls(sent: seq<Sent>, requestHash: string, receiptId: string)
    ensures !LogHas(sent, requestHash) ==> CallsForRequest(sent, requestHash) == 0
    ensures (forall i :: 0 <= i < |sent| ==> sent[i].receiptId != receiptId) ==> CallsForReceipt(sent, receiptId) == 0
  {
    if sent != [] {
      var init := sent[..|sent| - 1];
      NoCalls(init, requestHash, receiptId);
      assert LogHas(init, requestHash) ==> LogHas(sent, requestHash) by {
        assert forall i :: 0 <= i < |init| ==> init[i] == sent[i];
      }
      assert sent[|sent| - 1].requestHash == requestHash ==> LogHas(sent, requestHash);
    }
  }

  lemma {:induction false} CallsAreSingle(db: Db, sent: seq<Sent>, requestHash: string, receiptId: string)
    requires DbInv(db) && LogOk(db, sent)
    ensures CallsForRequest(sent, requestHash) <= 1
    ensures CallsForReceipt(sent, receiptId) <= 1
  {
    if sent != [] {
      var last, init := sent[|sent| - 1], sent[..|sent| - 1];
      forall i | 0 <= i < |init|
        ensures Attempted(db, init[i].requestHash, init[i].receiptId) && init[i].requestHash != last.requestHash
        ensures init[i].receiptId != last.receiptId
      {
        assert init[i] == sent[i] && Attempted(db, sent[i].requestHash, sent[i].receiptId);
        assert Attempted(db, sent[|sent| - 1].requestHash, sent[|sent| - 1].receiptId);
      }
      assert LogOk(db, init);
      CallsAreSingle(db, init, requestHash, receiptId);
      NoCalls(init, requestHash, receiptId);
    }
  }

  lemma InitialInv(capacity: nat)
    ensures Inv(Initial(capacity))
  {
  }

  /** In every run the broker is asked to submit at most once per request hash and at most once per receipt. */
  lemma AtMostOneBrokerCall(capacity: nat, events: seq<Event>, requestHash: string, receiptId: string)
    ensures CallsForRequest(Run(Initial(capacity), events).sent, requestHash) <= 1
    ensures CallsForReceipt(Run(Initial(capacity), events).sent, receiptId) <= 1
  {
    var s := Run(Initial(capacity), events);
    InitialInv(capacity);
    RunKeeps(Initial(capacity), events);
    CallsAreSingle(s.db, s.sent, requestHash, receiptId);
  }

  /** Every reachable row is readable, and its owner, attempt count and clocks fit its state. */
  lemma ReachableRowsAreSound(capacity: nat, events: seq<Event>, requestHash: string)
    requires requestHash in Run(Initial(capacity), events).db.rows
    ensures var s := Run(Initial(capacity), events);
            var row := s.db.rows[requestHash];
            && GetSpec(s.db, requestHash) == Ok(Some(row))
            && (row.owner.Some? <==> row.state in {Claimed, Submitting})
            && (row.attempts == 0 <==> row.state == Claimed || row.resolution == Some(NotSubmitted))
            && TimelineOk(row)
            && s.db.lastClock.Some? && row.updatedAt <= s.db.lastClock.value
  {
    InitialInv(capacity);
    RunKeeps(Initial(capacity), events);
    var s := Run(Initial(capacity), events);
    assert RowInv(s.db.rows[requestHash]);
  }

  /** A row reconciled as never submitted had no broker call before, has none later, and never changes. */
  lemma NotSubmittedIsTrue(capacity: nat, before: seq<Event>, after: seq<Event>, requestHash: string)
    requires requestHash in Run(Initial(capacity), before).db.rows
    requires Run(Initial(capacity), before).db.rows[requestHash].resolution == Some(NotSubmitted)
    ensures var s := Run(Initial(capacity), before);
            var t := Run(s, after);
            && requestHash in t.db.rows && t.db.rows[requestHash] == s.db.rows[requestHash]
            && CallsForRequest(t.sent, requestHash) == 0
  {
    InitialInv(capacity);
    RunKeeps(Initial(capacity), before);
    var s := Run(Initial(capacity), before);
    RunKeeps(s, after);
    var t := Run(s, after);
    assert RowInv(s.db.rows[requestHash]) && RowAdvances(s.db.rows[requestHash], t.db.rows[requestHash]);
    assert !LogHas(t.sent, requestHash);
    NoCalls(t.sent, requestHash, "");
  }
}
