/**
 * The agent-facing tool lane: one serialized owner of the journal, whose lock admits one operation at a time.
 * Crashes and restarts are runs of the same owner.
 */
module AgentLane {
  import opened Basics
  import opened SubmissionJournal
  import opened SubmissionProtocol
  import Tables = SubmissionTables

  datatype Verdict = AlreadyRecorded(row: Row) | ExecutionDisabled | UnresolvedSubmission | LaneUnavailable | Proceed

  predicate AnyUnresolved(rows: map<string, Row>) {
    exists h :: h in rows && Unresolved(rows[h])
  }

  /** What submit_paper_order decides before it touches the gateway. */
  function Dispatch(db: Db, requestHash: string, enabled: bool): Verdict {
    var got := GetSpec(db, requestHash);
    if got.Err? then LaneUnavailable
    else if got.value.Some? then AlreadyRecorded(got.value.value)
    else if !enabled then ExecutionDisabled
    else if AnyUnresolved(db.rows) then UnresolvedSubmission
    else Proceed
  }

  /** Every row has an accounted outcome. */
  ghost predicate AllResolved(rows: map<string, Row>) {
    forall h :: h in rows ==> rows[h].state == Submitted || rows[h].state == Reconciled
  }

  lemma ResolvedExactlyWhen(rows: map<string, Row>)
    ensures AllResolved(rows) <==> !AnyUnresolved(rows)
  {
    forall h | h in rows ensures Unresolved(rows[h]) <==> rows[h].state != Submitted && rows[h].state != Reconciled {
      match rows[h].state
      case Claimed =>
      case Submitting =>
      case Submitted =>
      case Uncertain =>
      case Reconciled =>
    }
  }

  /**
   * A submission proceeds exactly for a digest without a row, with execution enabled and every row resolved; a request
   * with a readable row is answered from it, and each other answer has its own condition.
   */
  lemma ProceedsExactlyWhen(db: Db, requestHash: string, enabled: bool)
    ensures var verdict := Dispatch(db, requestHash, enabled);
            var isNew := IsDigest(requestHash) && requestHash !in db.rows;
            var readable := IsDigest(requestHash) && requestHash in db.rows && Tables.IsReadable(db.rows[requestHash]);
            && (verdict == LaneUnavailable <==> !isNew && !readable)
            && (verdict.AlreadyRecorded? <==> readable) && (readable ==> verdict == AlreadyRecorded(db.rows[requestHash]))
            && (verdict == ExecutionDisabled <==> isNew && !enabled)
            && (verdict == UnresolvedSubmission <==> isNew && enabled && !AllResolved(db.rows))
            && (verdict == Proceed <==> isNew && enabled && AllResolved(db.rows))
  {
    ResolvedExactlyWhen(db.rows);
    Tables.ReadOnAnyTable(db, requestHash);
  }

  datatype LaneEvent =
    | SubmitTool(call: nat, requestHash: string, receiptId: string, expiry: Instant, enabled: bool)
    | ReconcileTool(call: nat, requestHash: string)
    | Continue(event: Event)
    | Restart

  /** While a call is in flight the lock is held, so a second tool call is answered as busy and changes nothing. */
  function LaneApply(s: System, e: LaneEvent): System {
    match e
    case SubmitTool(call, requestHash, receiptId, expiry, enabled) =>
      if s.calls == map[] && Dispatch(s.db, requestHash, enabled) == Proceed
      then Apply(s, Submit(call, 0, requestHash, receiptId, expiry)) else s
    case ReconcileTool(call, requestHash) =>
      if s.calls == map[] then Apply(s, Reconcile(call, 0, requestHash)) else s
    case Continue(event) =>
      if event.Submit? || event.Reconcile? then s else Apply(s, event)
    case Restart => Apply(s, Crash(0))
  }

  /**
   * A tool call starts a call of the gateway exactly when none is in flight, and a submission only when it proceeds;
   * a restart loses every call and claim of the lane and no row.
   */
  lemma LaneExactly(s: System, call: nat, requestHash: string, receiptId: string, expiry: Instant, enabled: bool)
    ensures LaneApply(s, SubmitTool(call, requestHash, receiptId, expiry, enabled))
         == if s.calls == map[] && IsDigest(requestHash) && requestHash !in s.db.rows && enabled && AllResolved(s.db.rows)
            then s.(calls := map[call := Call(0, Authorized(requestHash, receiptId, expiry))]) else s
    ensures LaneApply(s, ReconcileTool(call, requestHash))
         == if && s.calls == map[] && IsDigest(requestHash) && requestHash in s.db.rows
               && Tables.IsReadable(s.db.rows[requestHash])
            then s.(calls := map[call := Call(0, RecordRead(requestHash, s.db.rows[requestHash].state))]) else s
    ensures LaneApply(s, Restart)
         == s.(owned := s.owned - {0}, calls := map c | c in s.calls && s.calls[c].process != 0 :: s.calls[c])
  {
    ProceedsExactlyWhen(s.db, requestHash, enabled);
    Tables.ReadOnAnyTable(s.db, requestHash);
  }

  function LaneRun(s: System, events: seq<LaneEvent>): System
    decreases |events|
  {
    if events == [] then s else LaneRun(LaneApply(s, events[0]), events[1..])
  }

  ghost predicate OneUnresolved(rows: map<string, Row>) {
    forall h, k :: h in rows && k in rows && Unresolved(rows[h]) && Unresolved(rows[k]) ==> h == k
  }

  ghost predicate OneCall(calls: map<nat, Call>) {
    forall c, d :: c in calls && d in calls ==> c == d
  }

  /** A submission may only be about to claim while nothing else is unresolved. */
  ghost predicate LaneInv(s: System) {
    && Inv(s)
    && OneCall(s.calls)
    && OneUnresolved(s.db.rows)
    && (forall c :: c in s.calls && s.calls[c].pc.Authorized? ==> !AnyUnresolved(s.db.rows))
  }

  lemma NoNewUnresolved(a: Db, b: Db, h: string)
    requires DbAdvances(a, b) && h in a.rows && h in b.rows && Unresolved(b.rows[h])
    ensures Unresolved(a.rows[h])
  {
    assert RowAdvances(a.rows[h], b.rows[h]);
  }

  lemma ContinueKeepsOneUnresolved(s: System, e: Event)
    requires LaneInv(s)
    ensures OneUnresolved(Apply(s, e).db.rows)
    ensures !AnyUnresolved(s.db.rows) && !e.Consume? ==> !AnyUnresolved(Apply(s, e).db.rows)
  {
    ApplyKeeps(s, e);
    OnlyConsumeAdds(s, e);
    var t := Apply(s, e);
    forall h | h in t.db.rows && h in s.db.rows && Unresolved(t.db.rows[h])
      ensures Unresolved(s.db.rows[h])
    {
      NoNewUnresolved(s.db, t.db, h);
    }
  }

  lemma CallsShrinkOrMove(s: System, e: Event)
    requires !e.Submit? && !e.Reconcile?
    ensures forall c :: c in Apply(s, e).calls ==> c in s.calls
    ensures forall c :: c in Apply(s, e).calls && Apply(s, e).calls[c].pc.Authorized? ==> s.calls[c].pc.Authorized?
    ensures e.Consume? && e.call in s.calls && s.calls[e.call].pc.Authorized? ==>
              e.call !in Apply(s, e).calls || !Apply(s, e).calls[e.call].pc.Authorized?
  {
  }

  lemma LaneApplyKeeps(s: System, e: LaneEvent)
    requires LaneInv(s)
    ensures LaneInv(LaneApply(s, e))
  {
    match e
    case SubmitTool(call, requestHash, receiptId, expiry, enabled) =>
      if s.calls == map[] && Dispatch(s.db, requestHash, enabled) == Proceed {
        StartKeepsLane(s, Submit(call, 0, requestHash, receiptId, expiry));
      }
    case ReconcileTool(call, requestHash) =>
      if s.calls == map[] {
        StartKeepsLane(s, Reconcile(call, 0, requestHash));
      }
    case Continue(event) =>
      if !event.Submit? && !event.Reconcile? {
        ContinueKeepsLane(s, event);
      }
    case Restart => ContinueKeepsLane(s, Crash(0));
  }

  lemma StartKeepsLane(s: System, e: Event)
    requires LaneInv(s) && s.calls == map[]
    requires (e.Submit? && !AnyUnresolved(s.db.rows)) || e.Reconcile?
    ensures LaneInv(Apply(s, e))
  {
    ApplyKeeps(s, e);
  }

  lemma ContinueKeepsLane(s: System, e: Event)
    requires LaneInv(s) && !e.Submit? && !e.Reconcile?
    ensures LaneInv(Apply(s, e))
  {
    ApplyKeeps(s, e);
    ContinueKeepsOneUnresolved(s, e);
    CallsShrinkOrMove(s, e);
  }

  lemma {:induction false} LaneRunKeeps(s: System, events: seq<LaneEvent>)
    requires LaneInv(s)
    ensures LaneInv(LaneRun(s, events))
    decreases |events|
  {
    if events != [] {
      LaneApplyKeeps(s, events[0]);
      LaneRunKeeps(LaneApply(s, events[0]), events[1..]);
    }
  }

  /** Across every run of the lane, with crashes and restarts, at most one row is ever unresolved. */
  lemma AtMostOneUnresolved(capacity: nat, events: seq<LaneEvent>, h: string, k: string)
    requires var rows := LaneRun(Initial(capacity), events).db.rows;
             h in rows && k in rows && Unresolved(rows[h]) && Unresolved(rows[k])
    ensures h == k
  {
    InitialInv(capacity);
    LaneRunKeeps(Initial(capacity), events);
  }

  /** No call in flight could still send this request. */
  ghost predicate Spent(s: System, requestHash: string) {
    && requestHash in s.db.rows
    && (forall c :: c in s.calls ==>
          !MaySend(s.calls[c].pc, requestHash))
  }

  predicate MaySend(pc: Pc, requestHash: string) {
    (pc.Authorized? || pc.ClaimHeld? || pc.Cleared?) && pc.requestHash == requestHash
  }

  lemma SendersComeFromSenders(s: System, e: Event, requestHash: string)
    requires !e.Submit? && !e.Reconcile?
    ensures forall c :: c in Apply(s, e).calls && MaySend(Apply(s, e).calls[c].pc, requestHash) ==>
              c in s.calls && MaySend(s.calls[c].pc, requestHash)
  {
  }

  lemma OnlySendSends(s: System, e: Event)
    ensures var t := Apply(s, e);
            || t.sent == s.sent
            || (&& e.Send? && e.call in s.calls && s.calls[e.call].pc.Cleared?
                && t.sent == s.sent + [Sent(s.calls[e.call].pc.requestHash, s.calls[e.call].pc.receiptId)])
  {
  }

  lemma SpentApplies(s: System, e: Event, requestHash: string)
    requires Inv(s) && Spent(s, requestHash) && !e.Submit? && !e.Reconcile?
    ensures Spent(Apply(s, e), requestHash)
    ensures CallsForRequest(Apply(s, e).sent, requestHash) == CallsForRequest(s.sent, requestHash)
  {
    var t := Apply(s, e);
    ApplyKeeps(s, e);
    SendersComeFromSenders(s, e, requestHash);
    OnlySendSends(s, e);
    if t.sent != s.sent {
      assert t.sent[..|t.sent| - 1] == s.sent;
    }
  }

  /** A new call never is for a spent request. */
  lemma SpentStarts(s: System, e: Event, requestHash: string)
    requires Spent(s, requestHash) && (e.Reconcile? || (e.Submit? && e.requestHash !in s.db.rows))
    ensures Spent(Apply(s, e), requestHash) && Apply(s, e).sent == s.sent
  {
  }

  lemma DispatchIsNew(db: Db, requestHash: string, enabled: bool)
    requires Dispatch(db, requestHash, enabled) == Proceed
    ensures requestHash !in db.rows
  {
  }

  lemma SpentStays(s: System, e: LaneEvent, requestHash: string)
    requires LaneInv(s) && Spent(s, requestHash)
    ensures Spent(LaneApply(s, e), requestHash)
    ensures CallsForRequest(LaneApply(s, e).sent, requestHash) == CallsForRequest(s.sent, requestHash)
  {
    match e
    case SubmitTool(call, h, r, x, enabled) =>
      if s.calls == map[] && Dispatch(s.db, h, enabled) == Proceed {
        DispatchIsNew(s.db, h, enabled);
        SpentStarts(s, Submit(call, 0, h, r, x), requestHash);
      }
    case ReconcileTool(call, h) => SpentStarts(s, Reconcile(call, 0, h), requestHash);
    case Continue(event) =>
      if !event.Submit? && !event.Reconcile? {
        SpentApplies(s, event, requestHash);
      }
    case Restart => SpentApplies(s, Crash(0), requestHash);
  }

  lemma {:induction false} SpentForever(s: System, events: seq<LaneEvent>, requestHash: string)
    requires LaneInv(s) && Spent(s, requestHash)
    ensures CallsForRequest(LaneRun(s, events).sent, requestHash) == CallsForRequest(s.sent, requestHash)
    decreases |events|
  {
    if events != [] {
      SpentStays(s, events[0], requestHash);
      LaneApplyKeeps(s, events[0]);
      SpentForever(LaneApply(s, events[0]), events[1..], requestHash);
    }
  }

  /** Once a request is recorded and the lane is idle, no repetition of it ever reaches the broker. */
  lemma RecordedRequestNeverResent(capacity: nat, before: seq<LaneEvent>, after: seq<LaneEvent>, requestHash: string)
    requires var s := LaneRun(Initial(capacity), before); requestHash in s.db.rows && s.calls == map[]
    ensures var s := LaneRun(Initial(capacity), before);
            CallsForRequest(LaneRun(s, after).sent, requestHash) == CallsForRequest(s.sent, requestHash) <= 1
  {
    InitialInv(capacity);
    LaneRunKeeps(Initial(capacity), before);
    var s := LaneRun(Initial(capacity), before);
    SpentForever(s, after, requestHash);
    CallsAreSingle(s.db, s.sent, requestHash, "");
  }
}
