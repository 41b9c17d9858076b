/** The worker's steps inside the tools' lock, and what every run of the agent host therefore guarantees. */
module PaperAgentTools {
  import opened Basics
  import opened Reservations
  import J = SubmissionJournal
  import P = SubmissionProtocol
  import L = AgentLane
  import opened PaperAgentService
  import opened PaperAgentRuns

  // ----- what a lane step does to the one call in flight -----

  ghost predicate FollowsFrom(e: P.Event, before: P.Pc, after: P.Pc) {
    || after == before
    || (e.Consume? && before.Authorized? && after == P.ClaimHeld(before.requestHash, before.receiptId))
    || (e.Begin? && before.ClaimHeld? && after == P.Cleared(before.requestHash, before.receiptId))
    || (before.Cleared? && after.Answered? && after.requestHash == before.requestHash && after.receiptId == before.receiptId)
    || (before.Answered? && after == P.Answered(before.requestHash, before.receiptId, None))
    || (before.RecordRead? && after.OrderFound?)
  }

  /** A call goes from one position to the next, and stays the call of its process. */
  lemma CallMoves(p: P.System, e: P.Event, k: nat)
    requires !e.Submit? && !e.Reconcile? && k in P.Apply(p, e).calls
    ensures k in p.calls && P.Apply(p, e).calls[k].process == p.calls[k].process
    ensures FollowsFrom(e, p.calls[k].pc, P.Apply(p, e).calls[k].pc)
  {
  }

  lemma NewCall(p: P.System, op: nat, requestHash: string, receiptId: string, expiry: Instant, enabled: bool)
    ensures var q := L.LaneApply(p, L.SubmitTool(op, requestHash, receiptId, expiry, enabled));
            || q == p
            || (p.calls == map[] && q == p.(calls := map[op := P.Call(0, P.Authorized(requestHash, receiptId, expiry))]))
  {
  }

  lemma NewLookUp(p: P.System, op: nat, requestHash: string)
    ensures var q := L.LaneApply(p, L.ReconcileTool(op, requestHash));
            q == p || (p.calls == map[] && q.db == p.db && q.sent == p.sent && op in q.calls
                       && q.calls == map[op := P.Call(0, q.calls[op].pc)] && q.calls[op].pc.RecordRead?)
  {
  }

  /** A step of the lane by the one call in flight, seen from the protocol alone. */
  lemma LaneStep(p: P.System, op: nat, e: P.Event)
    requires L.LaneInv(p) && (forall k :: k in p.calls ==> k == op) && !e.Submit? && !e.Reconcile?
    ensures L.LaneInv(P.Apply(p, e)) && J.DbAdvances(p.db, P.Apply(p, e).db)
    ensures forall k :: k in P.Apply(p, e).calls ==> k == op
    ensures !e.Send? ==> P.Apply(p, e).sent == p.sent
  {
    L.LaneApplyKeeps(p, L.Continue(e));
    RowsOnlyAdvance(p, e);
    CallsShrink(p, op, e);
    if !e.Send? {
      SentOnlyBySend(p, e);
    }
  }

  lemma RowsOnlyAdvance(p: P.System, e: P.Event)
    requires P.Inv(p)
    ensures J.DbAdvances(p.db, P.Apply(p, e).db)
  {
    P.ApplyKeeps(p, e);
  }

  lemma CallsShrink(p: P.System, op: nat, e: P.Event)
    requires (forall k :: k in p.calls ==> k == op) && !e.Submit? && !e.Reconcile?
    ensures forall k :: k in P.Apply(p, e).calls ==> k == op
  {
    L.CallsShrinkOrMove(p, e);
    assert forall k :: k in P.Apply(p, e).calls ==> k in p.calls;
  }

  lemma SentOnlyBySend(p: P.System, e: P.Event)
    requires !e.Send?
    ensures P.Apply(p, e).sent == p.sent
  {
    L.OnlySendSends(p, e);
  }

  /** A worker's dispatch to the lane, seen from the protocol alone. */
  lemma DispatchStep(p: P.System, op: nat, le: L.LaneEvent, w: Worker)
    requires L.LaneInv(p) && (forall k :: k in p.calls ==> k == op && p.calls[k].process == 0 && CallOk(w, p.calls[k].pc))
    requires match le
             case SubmitTool(call, requestHash, receiptId, _, _) => call == op && IsFor(w, requestHash, receiptId) && w.step.Dispatched?
             case ReconcileTool(call, _) => call == op && w.job.LookUpJob?
             case _ => false
    ensures var q := L.LaneApply(p, le);
            && L.LaneInv(q) && J.DbAdvances(p.db, q.db) && q.sent == p.sent
            && (forall k :: k in q.calls ==> k == op && q.calls[k].process == 0 && CallOk(w, q.calls[k].pc))
  {
    L.LaneApplyKeeps(p, le);
    J.ClockKeeps(p.db, 0);
    match le
    case SubmitTool(_, requestHash, receiptId, expiry, enabled) => NewCall(p, op, requestHash, receiptId, expiry, enabled);
    case ReconcileTool(_, requestHash) => NewLookUp(p, op, requestHash);
  }

  /** What the worker that holds the tools' lock can rely on. */
  ghost predicate Holding(s: Service, c: Settings, op: nat) {
    && op in s.workers && s.lane == Some(op) && L.LaneInv(s.protocol) && FinishedOk(s.finished, s.protocol.db)
    && (forall k :: k in s.protocol.calls ==> k == op && s.protocol.calls[k].process == 0
                                              && CallOk(s.workers[op], s.protocol.calls[k].pc))
    && JobOk(s, c, s.workers[op].job) && StepOk(c, s.workers[op])
    && GuardsOk(s.assessments, s.reservations, c, s.guards, s.protocol.sent)
  }

  lemma HolderHasLock(s: Service, c: Settings, op: nat)
    requires Inv(s, c) && op in s.workers && !s.workers[op].step.Starting?
    ensures Holding(s, c, op)
  {
  }

  function DispatchEvent(s: Service, op: nat, clock: real, enabled: bool): Option<L.LaneEvent>
    requires op in s.workers
  {
    match s.workers[op].job
    case SubmitJob(a, _, _) =>
      Some(L.SubmitTool(op, a.requestHash, a.receipt.receiptId, a.receipt.expiresAt, ExecutionEnabled(s.preflightAt, enabled, clock)))
    case LookUpJob(requestHash, reconciling) => if reconciling then Some(L.ReconcileTool(op, requestHash)) else None
  }

  lemma DispatchIsEvent(s: Service, op: nat, clock: real, enabled: bool)
    requires op in s.workers
    ensures var le := DispatchEvent(s, op, clock, enabled);
            Dispatching(s, op, clock, enabled) == if le.Some? then L.LaneApply(s.protocol, le.value) else s.protocol
  {
  }

  lemma DispatchMoves(s: Service, c: Settings, op: nat, clock: real, enabled: bool, le: L.LaneEvent)
    requires Holding(s, c, op) && s.workers[op].step.Dispatched? && DispatchEvent(s, op, clock, enabled) == Some(le)
    ensures var q := L.LaneApply(s.protocol, le);
            LaneMoves(s, c, op, q, s.guards) && (op in q.calls ==> q.calls[op].process == 0 && CallOk(s.workers[op], q.calls[op].pc))
  {
    DispatchStep(s.protocol, op, le, s.workers[op]);
  }

  lemma DispatchedKeeps(s: Service, c: Settings, op: nat, clock: real, enabled: bool)
    requires Inv(s, c) && op in s.workers && s.workers[op].step.Dispatched?
    ensures Inv(s.(protocol := Dispatching(s, op, clock, enabled), guards := s.guards), c)
  {
    HolderHasLock(s, c, op);
    DispatchIsEvent(s, op, clock, enabled);
    var le := DispatchEvent(s, op, clock, enabled);
    if le.Some? {
      DispatchMoves(s, c, op, clock, enabled, le.value);
      ProtocolKeeps(s, c, op, L.LaneApply(s.protocol, le.value), s.guards);
    }
  }

  lemma DispatchAfterAdvance(s: Service, op: nat, clock: real, enabled: bool)
    requires op in s.workers && s.workers[op].step.Locked?
    ensures var t := Advanced(s, op, Dispatched);
            ApplyDispatch(s, op, clock, enabled) == t.(protocol := Dispatching(t, op, clock, enabled), guards := t.guards)
  {
  }

  lemma LockedIsReady(s: Service, c: Settings, op: nat)
    requires Holding(s, c, op) && s.workers[op].step.Locked?
    ensures var w := s.workers[op].(step := Dispatched);
            StepOk(c, w) && (op in s.protocol.calls ==> CallOk(w, s.protocol.calls[op].pc))
  {
  }

  lemma LockedAdvances(s: Service, c: Settings, op: nat)
    requires Inv(s, c) && op in s.workers && s.workers[op].step.Locked?
    ensures Inv(Advanced(s, op, Dispatched), c)
  {
    HolderHasLock(s, c, op);
    LockedIsReady(s, c, op);
    AdvancedKeeps(s, c, op, Dispatched);
  }

  lemma DispatchKeeps(s: Service, c: Settings, op: nat, clock: real, enabled: bool)
    requires Inv(s, c)
    ensures Inv(ApplyDispatch(s, op, clock, enabled), c)
  {
    if op in s.workers && s.workers[op].step.Locked? {
      LockedAdvances(s, c, op);
      DispatchAfterAdvance(s, op, clock, enabled);
      DispatchedKeeps(Advanced(s, op, Dispatched), c, op, clock, enabled);
    }
  }

  // ----- the last check -----

  /** A request with an order in the journal is past its claim: it cannot be begun. */
  lemma OrderedCannotBegin(p: P.System, op: nat, enabled: bool, now: Instant, fault: J.Fault)
    requires P.Inv(p) && op in p.calls && p.calls[op].pc.ClaimHeld? && HasOrder(p.db, p.calls[op].pc.requestHash)
    ensures !IsCleared(P.Apply(p, P.Begin(op, enabled, now, fault)), op)
  {
    assert J.RowInv(p.db.rows[p.calls[op].pc.requestHash]);
  }

  lemma ClearedWasClaimed(p: P.System, op: nat, enabled: bool, now: Instant, fault: J.Fault)
    requires IsCleared(P.Apply(p, P.Begin(op, enabled, now, fault)), op)
    ensures IsCleared(p, op) || (op in p.calls && p.calls[op].pc.ClaimHeld? && enabled)
  {
  }

  lemma BeginNeedsOwnCheck(p: P.System, op: nat, finished: set<string>, w: Worker,
                           on: bool, now: Instant, fault: J.Fault)
    requires P.Inv(p) && FinishedOk(finished, p.db) && w.step.Verified?
    requires op in p.calls ==> CallOk(w, p.calls[op].pc)
    requires IsCleared(P.Apply(p, P.Begin(op, on, now, fault)), op)
    ensures on && w.job.SubmitJob? && w.job.a.requestHash !in finished
  {
    ClearedWasClaimed(p, op, on, now, fault);
    if p.calls[op].pc.requestHash in finished {
      OrderedCannotBegin(p, op, on, now, fault);
    }
  }

  /** A pending submission that finds execution enabled finds it enabled by its own account check. */
  lemma OwnCheckIsInForce(s: Service, c: Settings, w: Worker, clock: real, enabled: bool)
    requires JobOk(s, c, w.job) && w.job.SubmitJob? && w.job.a.requestHash !in s.finished
    requires ExecutionEnabled(s.preflightAt, enabled, clock)
    ensures 0.0 <= clock - w.job.guardedAt <= FRESHNESS
  {
  }

  lemma CallOkFollows(w: Worker, e: P.Event, before: P.Pc, after: P.Pc)
    requires CallOk(w, before) && FollowsFrom(e, before, after)
    requires (e.Consume? ==> w.step.Verified?) && (e.Begin? && after.Cleared? ==> w.step.Checked?)
    ensures CallOk(w, after)
  {
  }

  lemma StepMoves(s: Service, c: Settings, op: nat, e: P.Event, guards: seq<Guarded>)
    requires Holding(s, c, op) && !e.Submit? && !e.Reconcile?
    requires GuardsOk(s.assessments, s.reservations, c, guards, P.Apply(s.protocol, e).sent)
    requires (e.Consume? ==> s.workers[op].step.Verified?)
    requires e.Begin? && IsCleared(P.Apply(s.protocol, e), op) ==> s.workers[op].step.Checked?
    ensures var q := P.Apply(s.protocol, e);
            LaneMoves(s, c, op, q, guards) && (op in q.calls ==> q.calls[op].process == 0 && CallOk(s.workers[op], q.calls[op].pc))
  {
    LaneStep(s.protocol, op, e);
    var q := P.Apply(s.protocol, e);
    if op in q.calls {
      CallMoves(s.protocol, e, op);
      CallOkFollows(s.workers[op], e, s.protocol.calls[op].pc, q.calls[op].pc);
    }
  }

  /** A step of the protocol by the worker that holds the lock. */
  lemma HolderStep(s: Service, c: Settings, op: nat, e: P.Event, guards: seq<Guarded>)
    requires Inv(s, c) && op in s.workers && !s.workers[op].step.Starting? && !e.Submit? && !e.Reconcile?
    requires GuardsOk(s.assessments, s.reservations, c, guards, P.Apply(s.protocol, e).sent)
    requires (e.Consume? ==> s.workers[op].step.Verified?)
    requires e.Begin? && IsCleared(P.Apply(s.protocol, e), op) ==> s.workers[op].step.Checked?
    ensures Inv(s.(protocol := P.Apply(s.protocol, e), guards := guards), c)
  {
    HolderHasLock(s, c, op);
    StepMoves(s, c, op, e, guards);
    ProtocolKeeps(s, c, op, P.Apply(s.protocol, e), guards);
  }

  function ReadyToSend(s: Service, op: nat, clock: real, cleared: bool): Service
    requires op in s.workers && s.workers[op].step.Verified?
  {
    if cleared then Advanced(s, op, Checked(s.workers[op].step.at, clock)) else s
  }

  lemma SendingAfterAdvance(s: Service, op: nat, clock: real, enabled: bool, now: Instant, fault: J.Fault)
    requires op in s.workers && s.workers[op].step.Verified?
    ensures var e := P.Begin(op, ExecutionEnabled(s.preflightAt, enabled, clock), now, fault);
            var t := ReadyToSend(s, op, clock, IsCleared(P.Apply(s.protocol, e), op));
            ApplyBeginSending(s, op, clock, enabled, now, fault) == t.(protocol := P.Apply(t.protocol, e), guards := t.guards)
  {
  }

  lemma ClearedIsChecked(s: Service, c: Settings, op: nat, clock: real, enabled: bool, now: Instant, fault: J.Fault)
    requires Holding(s, c, op) && s.workers[op].step.Verified?
    requires IsCleared(P.Apply(s.protocol, P.Begin(op, ExecutionEnabled(s.preflightAt, enabled, clock), now, fault)), op)
    ensures var w := s.workers[op].(step := Checked(s.workers[op].step.at, clock));
            StepOk(c, w) && (op in s.protocol.calls ==> CallOk(w, s.protocol.calls[op].pc))
  {
    var on := ExecutionEnabled(s.preflightAt, enabled, clock);
    ClearedWasClaimed(s.protocol, op, on, now, fault);
    BeginNeedsOwnCheck(s.protocol, op, s.finished, s.workers[op], on, now, fault);
    OwnCheckIsInForce(s, c, s.workers[op], clock, enabled);
  }

  lemma ReadyKeeps(s: Service, c: Settings, op: nat, clock: real, enabled: bool, now: Instant, fault: J.Fault, cleared: bool)
    requires Inv(s, c) && op in s.workers && s.workers[op].step.Verified?
    requires cleared == IsCleared(P.Apply(s.protocol, P.Begin(op, ExecutionEnabled(s.preflightAt, enabled, clock), now, fault)), op)
    ensures Inv(ReadyToSend(s, op, clock, cleared), c)
  {
    if cleared {
      HolderHasLock(s, c, op);
      ClearedIsChecked(s, c, op, clock, enabled, now, fault);
      AdvancedKeeps(s, c, op, Checked(s.workers[op].step.at, clock));
    }
  }

  lemma ReadyIsChecked(s: Service, op: nat, clock: real, cleared: bool)
    requires op in s.workers && s.workers[op].step.Verified?
    ensures var t := ReadyToSend(s, op, clock, cleared);
            && op in t.workers && !t.workers[op].step.Starting? && (cleared ==> t.workers[op].step.Checked?)
            && t.protocol == s.protocol
  {
  }

  lemma BeginSendingKeeps(s: Service, c: Settings, op: nat, clock: real, enabled: bool, now: Instant, fault: J.Fault)
    requires Inv(s, c)
    ensures Inv(ApplyBeginSending(s, op, clock, enabled, now, fault), c)
  {
    if op in s.workers && s.workers[op].step.Verified? {
      var e := P.Begin(op, ExecutionEnabled(s.preflightAt, enabled, clock), now, fault);
      var cleared := IsCleared(P.Apply(s.protocol, e), op);
      ReadyKeeps(s, c, op, clock, enabled, now, fault, cleared);
      ReadyIsChecked(s, op, clock, cleared);
      SendingAfterAdvance(s, op, clock, enabled, now, fault);
      BeginFrom(ReadyToSend(s, op, clock, cleared), c, op, e, cleared);
    }
  }

  lemma BeginFrom(s: Service, c: Settings, op: nat, e: P.Event, cleared: bool)
    requires Inv(s, c) && op in s.workers && !s.workers[op].step.Starting? && e.Begin?
    requires cleared == IsCleared(P.Apply(s.protocol, e), op) && (cleared ==> s.workers[op].step.Checked?)
    ensures Inv(s.(protocol := P.Apply(s.protocol, e), guards := s.guards), c)
  {
    HolderHasLock(s, c, op);
    SentOnlyBySend(s.protocol, e);
    HolderStep(s, c, op, e, s.guards);
  }

  // ----- the broker call and the rest of the call -----

  lemma GuardsGrow(assessments: map<string, Assessment>, reservations: seq<Reservation>, c: Settings,
                   guards: seq<Guarded>, sent: seq<P.Sent>, g: Guarded, x: P.Sent)
    requires GuardsOk(assessments, reservations, c, guards, sent) && GuardOk(assessments, reservations, c, g, x)
    ensures GuardsOk(assessments, reservations, c, guards + [g], sent + [x])
  {
    forall i | 0 <= i < |sent + [x]| ensures GuardOk(assessments, reservations, c, (guards + [g])[i], (sent + [x])[i]) {
      if i < |sent| {
        assert GuardOk(assessments, reservations, c, guards[i], sent[i]);
      }
    }
  }

  function GuardsAfter(s: Service, op: nat, q: P.System): seq<Guarded>
    requires op in s.workers
  {
    if q.sent == s.protocol.sent then s.guards else s.guards + GuardOf(s.workers[op])
  }

  lemma SendIsGuarded(s: Service, c: Settings, op: nat, e: P.Event)
    requires Inv(s, c) && op in s.workers && s.lane == Some(op) && e.Send? && e.call == op
    ensures GuardsOk(s.assessments, s.reservations, c, GuardsAfter(s, op, P.Apply(s.protocol, e)), P.Apply(s.protocol, e).sent)
  {
    var q := P.Apply(s.protocol, e);
    L.OnlySendSends(s.protocol, e);
    HolderHasLock(s, c, op);
    if q.sent != s.protocol.sent {
      CheckedIsGuard(s, c, op, P.Sent(s.protocol.calls[op].pc.requestHash, s.protocol.calls[op].pc.receiptId));
      GuardsGrow(s.assessments, s.reservations, c, s.guards, s.protocol.sent, GuardOf(s.workers[op])[0],
                 P.Sent(s.protocol.calls[op].pc.requestHash, s.protocol.calls[op].pc.receiptId));
    }
  }

  lemma CheckedIsGuard(s: Service, c: Settings, op: nat, x: P.Sent)
    requires op in s.workers && s.workers[op].step.Checked? && IsFor(s.workers[op], x.requestHash, x.receiptId)
    requires JobOk(s, c, s.workers[op].job) && StepOk(c, s.workers[op])
    ensures |GuardOf(s.workers[op])| == 1 && GuardOk(s.assessments, s.reservations, c, GuardOf(s.workers[op])[0], x)
  {
  }

  lemma ContinueGuards(s: Service, c: Settings, op: nat, e: P.Event)
    requires Inv(s, c) && op in s.workers && s.lane == Some(op) && WorkerMay(s.workers[op], op, e)
    ensures GuardsOk(s.assessments, s.reservations, c, GuardsAfter(s, op, P.Apply(s.protocol, e)), P.Apply(s.protocol, e).sent)
    ensures !s.workers[op].step.Starting?
  {
    if e.Send? {
      SendIsGuarded(s, c, op, e);
    } else {
      SentOnlyBySend(s.protocol, e);
      HolderHasLock(s, c, op);
    }
  }

  lemma ContinueIsStep(s: Service, op: nat, e: P.Event)
    requires op in s.workers && s.lane == Some(op) && WorkerMay(s.workers[op], op, e)
    ensures !e.Submit? && !e.Reconcile? && !e.Begin? && (e.Consume? ==> s.workers[op].step.Verified?)
    ensures var q := P.Apply(s.protocol, e); ApplyContinue(s, op, e) == s.(protocol := q, guards := GuardsAfter(s, op, q))
  {
  }

  lemma ContinuedKeeps(s: Service, c: Settings, op: nat, e: P.Event)
    requires Inv(s, c) && op in s.workers && s.lane == Some(op) && WorkerMay(s.workers[op], op, e)
    ensures Inv(s.(protocol := P.Apply(s.protocol, e), guards := GuardsAfter(s, op, P.Apply(s.protocol, e))), c)
  {
    ContinueIsStep(s, op, e);
    ContinueGuards(s, c, op, e);
    HolderStep(s, c, op, e, GuardsAfter(s, op, P.Apply(s.protocol, e)));
  }

  lemma ContinueKeeps(s: Service, c: Settings, op: nat, e: P.Event)
    requires Inv(s, c)
    ensures Inv(ApplyContinue(s, op, e), c)
  {
    if op in s.workers && s.lane == Some(op) && WorkerMay(s.workers[op], op, e) {
      ContinueIsStep(s, op, e);
      ContinuedKeeps(s, c, op, e);
    }
  }

  // ----- leaving, and the end of the process -----

  lemma WithoutCalls(s: Service, c: Settings, op: nat, q: P.System)
    requires Inv(s, c) && s.lane == Some(op) && LaneMoves(s, c, op, q, s.guards) && q.calls == map[]
    ensures Inv(s.(protocol := q, lane := None, workers := s.workers - {op}), c)
  {
    var t := s.(protocol := q, lane := None, workers := s.workers - {op});
    ProtocolDurable(s, c, op, q, s.guards);
    DurableFrame(s.(protocol := q, guards := s.guards), t, c);
    WithoutWorker(s, c, op, q);
  }

  lemma WithoutWorker(s: Service, c: Settings, op: nat, q: P.System)
    requires Volatile(s, c) && s.lane == Some(op) && J.DbAdvances(s.protocol.db, q.db) && q.calls == map[]
    ensures Volatile(s.(protocol := q, lane := None, workers := s.workers - {op}), c)
  {
    var t := s.(protocol := q, lane := None, workers := s.workers - {op});
    forall w | w in t.workers ensures JobOk(t, c, t.workers[w].job) {
      assert JobOk(s, c, s.workers[w].job);
    }
    forall u | u in t.tasks ensures PcOk(t, c, t.tasks[u]) {
      assert PcOk(s, c, s.tasks[u]);
      if s.tasks[u].Told? && s.tasks[u].brokerOrderId.Some? {
        OrdersStay(s.protocol.db, q.db, s.tasks[u].requestHash);
      }
    }
  }

  lemma RecordedIsOrdered(db: J.Db, requestHash: string)
    requires RecordedOrder(db, requestHash).Some?
    ensures HasOrder(db, requestHash)
  {
  }

  lemma LeaveIsAnswer(s: Service, op: nat, raised: bool)
    requires op in s.workers && s.lane == Some(op)
    ensures var q := P.Apply(s.protocol, P.Abandon(op));
            var t := s.(protocol := q, lane := None, workers := s.workers - {op});
            var told := if raised then None else RecordedOrder(s.protocol.db, HashOf(s.workers[op].job));
            ApplyLeave(s, op, raised)
            == if op in s.tasks && s.tasks[op].AwaitingTool?
               then Moved(t, op, Told(HashOf(s.workers[op].job), s.tasks[op].reconciling, told)) else t
    ensures P.Apply(s.protocol, P.Abandon(op)).db == s.protocol.db
    ensures op !in P.Apply(s.protocol, P.Abandon(op)).calls
  {
  }

  lemma AbandonMoves(s: Service, c: Settings, op: nat)
    requires Holding(s, c, op)
    ensures var q := P.Apply(s.protocol, P.Abandon(op)); LaneMoves(s, c, op, q, s.guards) && q.calls == map[]
  {
    LaneStep(s.protocol, op, P.Abandon(op));
    LeaveIsAnswer(s, op, true);
  }

  lemma LeftKeeps(s: Service, c: Settings, op: nat)
    requires Inv(s, c) && op in s.workers && s.lane == Some(op)
    ensures Inv(s.(protocol := P.Apply(s.protocol, P.Abandon(op)), lane := None, workers := s.workers - {op}), c)
  {
    HolderHasLock(s, c, op);
    AbandonMoves(s, c, op);
    WithoutCalls(s, c, op, P.Apply(s.protocol, P.Abandon(op)));
  }

  lemma LeaveKeeps(s: Service, c: Settings, op: nat, raised: bool)
    requires Inv(s, c)
    ensures Inv(ApplyLeave(s, op, raised), c)
  {
    if op in s.workers && s.lane == Some(op) {
      var t := s.(protocol := P.Apply(s.protocol, P.Abandon(op)), lane := None, workers := s.workers - {op});
      var requestHash := HashOf(s.workers[op].job);
      var told := if raised then None else RecordedOrder(s.protocol.db, requestHash);
      LeftKeeps(s, c, op);
      LeaveIsAnswer(s, op, raised);
      if told.Some? {
        RecordedIsOrdered(s.protocol.db, requestHash);
      }
      if op in s.tasks && s.tasks[op].AwaitingTool? {
        MovedKeeps(t, c, op, Told(requestHash, s.tasks[op].reconciling, told));
      }
    }
  }

  lemma CrashKeeps(s: Service, c: Settings)
    requires Inv(s, c)
    ensures Inv(Apply(s, c, Crash), c)
  {
    var t := Apply(s, c, Crash);
    L.LaneApplyKeeps(s.protocol, L.Restart);
    assert t.protocol.calls == map[] && t.protocol.db == s.protocol.db && t.protocol.sent == s.protocol.sent;
    assert Durable(t, c);
  }

  // ----- every run -----

  lemma OperationKeeps(s: Service, c: Settings, e: Event)
    requires Inv(s, c) && c.budget.Valid()
    requires e.Run? || e.Disconnect? || e.CancelOwned? || e.BeginAssess? || e.FinishAssess? || e.BeginSubmit? || e.CheckAccount?
             || e.BeginLookUp? || e.Observe? || e.Finish? || e.Close?
    ensures Inv(Apply(s, c, e), c)
  {
    match e
    case Run(op, action) => RunKeepsInv(s, c, op, action);
    case Disconnect(op) => CallersKeep(s, c, op);
    case CancelOwned(op, stopped) => CancelKeeps(s, c, op, stopped);
    case BeginAssess(op, now) => BeginAssessKeeps(s, c, op, now);
    case FinishAssess(op, receipt, now) => FinishAssessKeeps(s, c, op, receipt, now);
    case BeginSubmit(op, enabled, profileOk, now) => BeginSubmitKeeps(s, c, op, enabled, profileOk, now);
    case CheckAccount(op, portfolio, preflight, check, enabled, day) =>
      CheckAccountKeeps(s, c, op, portfolio, preflight, check, enabled, day);
    case BeginLookUp(op) => BeginLookUpKeeps(s, c, op);
    case Observe(op, brokerOrderId, terminal, accepted) => ObserveKeeps(s, c, op, brokerOrderId, terminal, accepted);
    case Finish(op) => FinishKeeps(s, c, op);
    case Close => CallersKeep(s, c, 0);
  }

  lemma FinishKeeps(s: Service, c: Settings, op: nat)
    requires Inv(s, c)
    ensures Inv(ApplyFinish(s, op), c)
  {
    if op in s.tasks {
      EndedKeeps(s, c, op);
    }
  }

  lemma ApplyKeeps(s: Service, c: Settings, e: Event)
    requires Inv(s, c) && c.budget.Valid()
    ensures Inv(Apply(s, c, e), c)
  {
    match e
    case Enter(op) => EnterKeeps(s, c, op);
    case Dispatch(op, clock, enabled) => DispatchKeeps(s, c, op, clock, enabled);
    case Authorize(op, at) => AuthorizeKeeps(s, c, op, at);
    case BeginSending(op, clock, enabled, now, fault) => BeginSendingKeeps(s, c, op, clock, enabled, now, fault);
    case Continue(op, event) => ContinueKeeps(s, c, op, event);
    case Leave(op, raised) => LeaveKeeps(s, c, op, raised);
    case Crash => CrashKeeps(s, c);
    case _ => OperationKeeps(s, c, e);
  }

  lemma {:induction false} RunKeeps(c: Settings, events: seq<Event>)
    requires c.budget.Valid()
    ensures Inv(RunEvents(c, events), c)
    decreases |events|
  {
    if events == [] {
      FreshInv(c);
    } else {
      RunKeeps(c, events[..|events| - 1]);
      ApplyKeeps(RunEvents(c, events[..|events| - 1]), c, events[|events| - 1]);
    }
  }
}
