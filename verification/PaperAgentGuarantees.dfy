/** What the agent host guarantees in every run, and exactly when its workers can overlap. */
module PaperAgentGuarantees {
  import opened Basics
  import opened AccountLimits
  import opened Reservations
  import R = TradeSafetyReceipts
  import J = SubmissionJournal
  import P = SubmissionProtocol
  import L = AgentLane
  import opened PaperAgentService
  import opened PaperAgentRuns
  import Tools = PaperAgentTools

  // ----- every broker call -----

  /**
   * Every broker call in the journal's log, in every run with any disconnects, cancellations and crashes, is the
   * host's own request for the proposal its intent is bound to; the account allowed it on a portfolio read at most
   * ten seconds before the last check, it was reserved, and the order guard let it through.  No request and no
   * receipt is ever sent twice.
   */
  lemma EverySubmissionIsGuarded(c: Settings, events: seq<Event>, i: nat)
    requires c.budget.Valid() && i < |RunEvents(c, events).protocol.sent|
    ensures var s := RunEvents(c, events);
            && |s.guards| == |s.protocol.sent| && GuardOk(s.assessments, s.reservations, c, s.guards[i], s.protocol.sent[i])
            && AssessmentOk(c, s.guards[i].a) && SoundAfterFill(c.limits, s.guards[i].a.proposal, s.guards[i].portfolio)
            && P.CallsForRequest(s.protocol.sent, s.protocol.sent[i].requestHash) <= 1
            && P.CallsForReceipt(s.protocol.sent, s.protocol.sent[i].receiptId) <= 1
  {
    Tools.RunKeeps(c, events);
    var s := RunEvents(c, events);
    GuardedSendIsGuarded(s, c, i);
    P.CallsAreSingle(s.protocol.db, s.protocol.sent, s.protocol.sent[i].requestHash, s.protocol.sent[i].receiptId);
  }

  lemma GuardedSendIsGuarded(s: Service, c: Settings, i: nat)
    requires Durable(s, c) && i < |s.protocol.sent|
    ensures |s.guards| == |s.protocol.sent| && GuardOk(s.assessments, s.reservations, c, s.guards[i], s.protocol.sent[i])
    ensures AssessmentOk(c, s.guards[i].a) && SoundAfterFill(c.limits, s.guards[i].a.proposal, s.guards[i].portfolio)
  {
    var g := s.guards[i];
    assert GuardOk(s.assessments, s.reservations, c, g, s.protocol.sent[i]);
    GuardMeaning(c.limits, g.a.proposal, g.portfolio);
  }

  /**
   * One operation is owned at a time, one worker is past the tools' lock and only it has a call of the journal
   * and the broker in flight; at most one reservation awaits its outcome, at most one journal row is unresolved,
   * and no day is over budget.
   */
  lemma LaneIsSerial(c: Settings, events: seq<Event>)
    requires c.budget.Valid()
    ensures var s := RunEvents(c, events);
            && OneOperation(s.tasks, s.busy) && LockOk(s.workers, s.lane, s.protocol.calls)
            && AtMostOnePending(s.reservations, s.finished) && L.OneUnresolved(s.protocol.db.rows)
            && Sound(s.reservations, c.budget)
  {
    Tools.RunKeeps(c, events);
  }

  // ----- what a worker's steps leave alone -----

  predicate IsWorkerEvent(e: Event) {
    e.Enter? || e.Dispatch? || e.Authorize? || e.BeginSending? || e.Continue? || e.Leave?
  }

  /** Inside the lane no operation begins or ends, no worker is started, and no table of the service is written. */
  predicate InsideLane(s: Service, t: Service) {
    && t.tasks.Keys == s.tasks.Keys && t.workers.Keys <= s.workers.Keys && t.closed == s.closed && t.busy == s.busy
    && t.assessments == s.assessments && t.reservations == s.reservations && t.waiters == s.waiters
  }

  lemma AnsweringStaysInside(s: Service, op: nat, requestHash: string, brokerOrderId: Option<string>)
    ensures InsideLane(s, Answered(s, op, requestHash, brokerOrderId))
  {
  }

  lemma EnteringStaysInside(s: Service, op: nat)
    ensures InsideLane(s, ApplyEnter(s, op))
  {
    if op in s.workers {
      AnsweringStaysInside(s, op, HashOf(s.workers[op].job), None);
    }
  }

  lemma LeavingStaysInside(s: Service, op: nat, raised: bool)
    ensures InsideLane(s, ApplyLeave(s, op, raised))
  {
    if op in s.workers && s.lane == Some(op) {
      var requestHash := HashOf(s.workers[op].job);
      AnsweringStaysInside(s.(protocol := L.LaneApply(s.protocol, L.Continue(P.Abandon(op))), lane := None), op, requestHash,
                           if raised then None else RecordedOrder(s.protocol.db, requestHash));
    }
  }

  lemma CheckingStaysInside(s: Service, c: Settings, op: nat, clock: real, enabled: bool, at: Instant)
    ensures InsideLane(s, ApplyDispatch(s, op, clock, enabled)) && InsideLane(s, ApplyAuthorize(s, c, op, at))
  {
  }

  lemma SendingStaysInside(s: Service, op: nat, clock: real, enabled: bool, now: Instant, fault: J.Fault)
    ensures InsideLane(s, ApplyBeginSending(s, op, clock, enabled, now, fault))
  {
  }

  lemma ContinuingStaysInside(s: Service, op: nat, event: P.Event)
    ensures InsideLane(s, ApplyContinue(s, op, event))
  {
  }

  lemma WorkerStaysInside(s: Service, c: Settings, e: Event)
    requires IsWorkerEvent(e)
    ensures InsideLane(s, Apply(s, c, e))
  {
    match e
    case Enter(op) => EnteringStaysInside(s, op);
    case Dispatch(op, clock, enabled) => CheckingStaysInside(s, c, op, clock, enabled, 0);
    case Authorize(op, at) => CheckingStaysInside(s, c, op, 0.0, false, at);
    case BeginSending(op, clock, enabled, now, fault) => SendingStaysInside(s, op, clock, enabled, now, fault);
    case Continue(op, event) => ContinuingStaysInside(s, op, event);
    case Leave(op, raised) => LeavingStaysInside(s, op, raised);
  }

  // ----- an intent is bound for life -----

  lemma AssessmentsStay(s: Service, c: Settings, e: Event, intentId: string)
    requires intentId in s.assessments
    ensures intentId in Apply(s, c, e).assessments && Apply(s, c, e).assessments[intentId] == s.assessments[intentId]
  {
    if IsWorkerEvent(e) {
      WorkerStaysInside(s, c, e);
    } else if e.FinishAssess? {
      FinishAssessAdds(s, c, e.op, e.receipt, e.now, intentId);
    } else {
      OthersRecordNothing(s, c, e);
    }
  }

  lemma FinishAssessAdds(s: Service, c: Settings, op: nat, receipt: R.Receipt, now: Instant, intentId: string)
    requires intentId in s.assessments
    ensures var t := ApplyFinishAssess(s, c, op, receipt, now);
            intentId in t.assessments && t.assessments[intentId] == s.assessments[intentId]
  {
  }

  lemma OthersRecordNothing(s: Service, c: Settings, e: Event)
    requires !IsWorkerEvent(e) && !e.FinishAssess?
    ensures Apply(s, c, e).assessments == s.assessments
  {
    if IsOperationStep(e) {
      OperationStaysOutside(s, c, e);
    }
  }

  /** An intent keeps the proposal, the request and the receipt it was first given, for life. */
  lemma {:induction false} IntentIsBoundForLife(c: Settings, events: seq<Event>, later: seq<Event>, intentId: string)
    requires intentId in RunEvents(c, events).assessments
    ensures var now, after := RunEvents(c, events), RunEvents(c, events + later);
            intentId in after.assessments && after.assessments[intentId] == now.assessments[intentId]
    decreases |later|
  {
    var all := events + later;
    if later == [] {
      assert all == events;
    } else {
      var n := |later| - 1;
      IntentIsBoundForLife(c, events, later[..n], intentId);
      assert all[..|all| - 1] == events + later[..n];
      AssessmentsStay(RunEvents(c, events + later[..n]), c, later[n], intentId);
    }
  }

  // ----- callers, operations and workers -----

  ghost predicate Overlap(s: Service) {
    exists v, w :: v in s.workers && w in s.workers && v != w
  }

  /** One worker at most, and while the service takes requests its operation is the one that is owned. */
  ghost predicate Settled(s: Service) {
    && (forall v, w :: v in s.workers && w in s.workers ==> v == w)
    && (forall w :: w in s.workers ==> w in s.tasks || (s.closed && s.tasks == map[]))
  }

  /** An owned operation is cancelled and its worker goes on. */
  predicate LeavesWorker(s: Service, op: nat, stopped: bool) {
    op in s.tasks && op in s.workers && !(stopped && s.workers[op].step.Starting?)
  }

  predicate Abandons(s: Service, e: Event) {
    e.CancelOwned? && LeavesWorker(s, e.op, e.stopped) && !s.closed
  }

  /** Only an operation that waits for its worker has one. */
  ghost predicate Shape(s: Service) {
    OneOperation(s.tasks, s.busy) && forall t :: t in s.tasks && t in s.workers ==> s.tasks[t].AwaitingTool?
  }

  lemma OperationSettles(s: Service, c: Settings, e: Event)
    requires Shape(s) && Settled(s) && !Abandons(s, e)
    requires e.Run? || e.Disconnect? || e.CancelOwned? || e.Finish? || e.Close? || e.Crash?
    ensures Settled(Apply(s, c, e))
  {
  }

  lemma AssessmentSettles(s: Service, c: Settings, e: Event)
    requires Shape(s) && Settled(s)
    requires e.BeginAssess? || e.FinishAssess? || e.Observe?
    ensures Settled(Apply(s, c, e))
  {
  }

  lemma MovedSettles(s: Service, op: nat, pc: Pc)
    requires Settled(s) && op in s.tasks
    ensures Settled(Moved(s, op, pc))
  {
  }

  /** The operation that starts a worker is the only one, and has none yet. */
  lemma StartedSettles(s: Service, op: nat, job: Job, reconciling: bool)
    requires Shape(s) && Settled(s) && op in s.tasks && !s.tasks[op].AwaitingTool?
    ensures Settled(Started(s, op, job, reconciling))
  {
    assert forall w :: w !in s.workers;
  }

  lemma BeginSubmitSettles(s: Service, c: Settings, op: nat, enabled: bool, profileOk: bool, now: Instant)
    requires Shape(s) && Settled(s)
    ensures Settled(ApplyBeginSubmit(s, c, op, enabled, profileOk, now))
  {
    if op in s.tasks && s.tasks[op].Queued? && s.tasks[op].action.Submit? {
      var requestHash := s.tasks[op].action.assessmentId;
      BeginSubmitCases(s, c, op, enabled, profileOk, now);
      MovedSettles(s, op, Done);
      StartedSettles(s, op, LookUpJob(requestHash, false), false);
      if Lookup(s, requestHash).Some? {
        MovedSettles(s, op, AwaitingPortfolio(Lookup(s, requestHash).value));
      }
    }
  }

  lemma CheckAccountSettles(s: Service, c: Settings, op: nat, portfolio: Portfolio, preflight: real, check: real,
                            enabled: bool, day: int)
    requires Shape(s) && Settled(s)
    ensures Settled(ApplyCheckAccount(s, c, op, portfolio, preflight, check, enabled, day))
  {
    if op in s.tasks && s.tasks[op].AwaitingPortfolio? {
      var a := s.tasks[op].a;
      var noted := Moved(s, op, Done).(preflightAt := Some(preflight));
      CheckAccountCases(s, c, op, portfolio, preflight, check, enabled, day);
      MovedSettles(s, op, Done);
      StartedSettles(noted.(reservations := s.reservations + [ReservationFor(a, day)]), op,
                     SubmitJob(a, portfolio, preflight), false);
    }
  }

  lemma LookUpSettles(s: Service, op: nat)
    requires Shape(s) && Settled(s)
    ensures Settled(ApplyBeginLookUp(s, op))
  {
    if op in s.tasks && s.tasks[op].Queued? && s.tasks[op].action.LookUp? {
      var action := s.tasks[op].action;
      MovedSettles(s, op, Done);
      StartedSettles(s, op, LookUpJob(action.assessmentId, action.reconciling), action.reconciling);
    }
  }

  lemma WorkerSettles(s: Service, c: Settings, e: Event)
    requires Settled(s) && IsWorkerEvent(e)
    ensures Settled(Apply(s, c, e))
  {
    WorkerStaysInside(s, c, e);
    var t := Apply(s, c, e);
    assert forall w :: w in t.workers ==> w in s.workers;
    assert t.tasks == map[] <==> t.tasks.Keys == {};
    assert s.tasks == map[] <==> s.tasks.Keys == {};
  }

  lemma StepSettles(s: Service, c: Settings, e: Event)
    requires Shape(s) && Settled(s) && !Abandons(s, e)
    ensures Settled(Apply(s, c, e))
  {
    match e
    case BeginAssess(_, _) => AssessmentSettles(s, c, e);
    case FinishAssess(_, _, _) => AssessmentSettles(s, c, e);
    case Observe(_, _, _, _) => AssessmentSettles(s, c, e);
    case BeginSubmit(op, enabled, profileOk, now) => BeginSubmitSettles(s, c, op, enabled, profileOk, now);
    case CheckAccount(op, portfolio, preflight, check, enabled, day) =>
      CheckAccountSettles(s, c, op, portfolio, preflight, check, enabled, day);
    case BeginLookUp(op) => LookUpSettles(s, op);
    case Run(_, _) => OperationSettles(s, c, e);
    case Disconnect(_) => OperationSettles(s, c, e);
    case CancelOwned(_, _) => OperationSettles(s, c, e);
    case Finish(_) => OperationSettles(s, c, e);
    case Close => OperationSettles(s, c, e);
    case Crash => OperationSettles(s, c, e);
    case _ => WorkerSettles(s, c, e);
  }

  lemma InvShape(s: Service, c: Settings)
    requires Inv(s, c)
    ensures Shape(s)
  {
  }

  /** No step of this continuation cancels an operation of an open service under its running worker. */
  ghost predicate NeverAbandons(s: Service, c: Settings, events: seq<Event>) {
    forall i :: 0 <= i < |events| ==> !Abandons(RunFrom(s, c, events[..i]), events[i])
  }

  lemma {:induction false} StaysSettled(s: Service, c: Settings, events: seq<Event>)
    requires Inv(s, c) && c.budget.Valid() && Settled(s) && NeverAbandons(s, c, events)
    ensures Inv(RunFrom(s, c, events), c) && Settled(RunFrom(s, c, events))
    decreases |events|
  {
    if events != [] {
      var n := |events| - 1;
      forall i | 0 <= i < n ensures !Abandons(RunFrom(s, c, events[..n][..i]), events[..n][i]) {
        assert events[..n][..i] == events[..i];
      }
      StaysSettled(s, c, events[..n]);
      InvShape(RunFrom(s, c, events[..n]), c);
      StepSettles(RunFrom(s, c, events[..n]), c, events[n]);
      Tools.ApplyKeeps(RunFrom(s, c, events[..n]), c, events[n]);
    }
  }

  /**
   * Whoever disconnects, there is never more than one worker, and until it is done its operation owns the lane:
   * no other is accepted.
   */
  lemma WorkersNeverOverlap(c: Settings, events: seq<Event>)
    requires c.budget.Valid() && NeverAbandons(Fresh(c), c, events)
    ensures var s := RunEvents(c, events);
            !Overlap(s) && forall w :: w in s.workers ==> if s.closed then true else s.busy && w in s.tasks
  {
    FreshInv(c);
    StaysSettled(Fresh(c), c, events);
    InvShape(RunEvents(c, events), c);
  }

  predicate Uncancelled(events: seq<Event>) {
    forall i :: 0 <= i < |events| ==> !events[i].CancelOwned?
  }

  ghost predicate CanOverlap(s: Service, c: Settings) {
    exists later :: Uncancelled(later) && Overlap(RunFrom(s, c, later))
  }

  /** Two events that start a second worker beside one that was left behind. */
  function SecondLookUp(op: nat, requestHash: string): seq<Event> {
    [Event.Run(op, LookUp(requestHash, false)), BeginLookUp(op)]
  }

  lemma RunTwo(s: Service, c: Settings, first: Event, second: Event)
    ensures RunFrom(s, c, [first, second]) == Apply(Apply(s, c, first), c, second)
  {
    assert [first, second][..1] == [first] && [first][..0] == [];
    assert RunFrom(s, c, [first]) == Apply(s, c, first);
  }

  lemma SecondLookUpOverlaps(s: Service, c: Settings, left: nat, op: nat, requestHash: string)
    requires !s.closed && !s.busy && s.tasks == map[] && left in s.workers && op !in s.workers && left != op
    requires Lookup(s, requestHash).Some?
    ensures Overlap(RunFrom(s, c, SecondLookUp(op, requestHash)))
  {
    RunTwo(s, c, Event.Run(op, LookUp(requestHash, false)), BeginLookUp(op));
    var t := ApplyRun(s, op, LookUp(requestHash, false));
    assert Lookup(t, requestHash) == Lookup(s, requestHash);
    var u := ApplyBeginLookUp(t, op);
    assert op in u.workers && left in u.workers;
  }

  lemma JobIsKnown(s: Service, c: Settings, op: nat)
    requires Inv(s, c) && op in s.workers
    ensures Lookup(s, HashOf(s.workers[op].job)).Some?
  {
    assert JobOk(s, c, s.workers[op].job);
  }

  lemma CancelLeaves(s: Service, c: Settings, op: nat, stopped: bool)
    requires Inv(s, c) && Settled(s) && LeavesWorker(s, op, stopped)
    ensures var t := ApplyCancel(s, op, stopped);
            && Inv(t, c) && t.tasks == map[] && !t.busy && t.workers == s.workers && t.closed == s.closed && (s.closed ==> Settled(t))
            && Lookup(t, HashOf(s.workers[op].job)).Some?
  {
    InvShape(s, c);
    EndedKeeps(s, c, op);
    JobIsKnown(s, c, op);
  }

  // ----- a service that stays busy -----

  /** Busy with no operation: nothing can be asked of the service any more. */
  predicate StaysBusy(s: Service) {
    s.busy && s.tasks == map[]
  }

  /** An operation is cancelled before it has taken its first step. */
  predicate Strands(s: Service, e: Event) {
    e.CancelOwned? && e.op in s.tasks && s.tasks[e.op].Queued?
  }

  lemma EndingStrands(s: Service, c: Settings, e: Event)
    requires Shape(s) && (e.Run? || e.Disconnect? || e.CancelOwned? || e.Finish? || e.Close? || e.Crash?)
    ensures StaysBusy(Apply(s, c, e)) <==> !e.Crash? && (StaysBusy(s) || Strands(s, e))
  {
    if e.CancelOwned? && e.op in s.tasks {
      assert forall u :: u in s.tasks ==> u == e.op;
      assert s.tasks - {e.op} == map[];
    }
  }

  lemma KeptLaneStrandsNothing(s: Service, t: Service)
    requires t.busy == s.busy && t.tasks.Keys == s.tasks.Keys
    ensures StaysBusy(t) <==> StaysBusy(s)
  {
    assert t.tasks == map[] <==> t.tasks.Keys == {};
    assert s.tasks == map[] <==> s.tasks.Keys == {};
  }

  lemma StepStrands(s: Service, c: Settings, e: Event)
    requires Shape(s)
    ensures StaysBusy(Apply(s, c, e)) <==> !e.Crash? && (StaysBusy(s) || Strands(s, e))
  {
    if IsWorkerEvent(e) {
      WorkerStaysInside(s, c, e);
      KeptLaneStrandsNothing(s, Apply(s, c, e));
    } else if IsOperationStep(e) {
      OperationStaysOutside(s, c, e);
      KeptLaneStrandsNothing(s, Apply(s, c, e));
    } else {
      EndingStrands(s, c, e);
    }
  }

  /** Some operation was cancelled before its first step, and the process has not been restarted since. */
  predicate HasStranded(c: Settings, events: seq<Event>)
    decreases |events|
  {
    if events == [] then false
    else
      var n := |events| - 1;
      !events[n].Crash? && (HasStranded(c, events[..n]) || Strands(RunEvents(c, events[..n]), events[n]))
  }

  /**
   * The service is busy exactly while an operation is owned, except after an operation was cancelled before its first
   * step: then, until a restart, it is busy with no operation and refuses every request.
   */
  lemma BusyExactlyWhen(c: Settings, events: seq<Event>)
    requires c.budget.Valid()
    ensures var s := RunEvents(c, events);
            (s.busy <==> s.tasks != map[] || HasStranded(c, events)) && (HasStranded(c, events) ==> s.tasks == map[])
  {
    BusyExactly(c, events);
    Tools.RunKeeps(c, events);
    InvShape(RunEvents(c, events), c);
  }

  lemma {:induction false} BusyExactly(c: Settings, events: seq<Event>)
    requires c.budget.Valid()
    ensures StaysBusy(RunEvents(c, events)) <==> HasStranded(c, events)
    decreases |events|
  {
    if events != [] {
      var n := |events| - 1;
      BusyExactly(c, events[..n]);
      Tools.RunKeeps(c, events[..n]);
      InvShape(RunEvents(c, events[..n]), c);
      StepStrands(RunEvents(c, events[..n]), c, events[n]);
    }
  }

  lemma ClosedCannotOverlap(s: Service, c: Settings)
    requires Inv(s, c) && c.budget.Valid() && Settled(s)
    ensures !CanOverlap(s, c)
  {
    forall later | Uncancelled(later) ensures !Overlap(RunFrom(s, c, later)) {
      StaysSettled(s, c, later);
    }
  }

  lemma OpenCanOverlap(s: Service, c: Settings, left: nat, requestHash: string)
    requires !s.closed && !s.busy && s.tasks == map[] && (forall w :: w in s.workers <==> w == left)
    requires Lookup(s, requestHash).Some?
    ensures CanOverlap(s, c)
  {
    SecondLookUpOverlaps(s, c, left, left + 1, requestHash);
    assert Uncancelled(SecondLookUp(left + 1, requestHash));
  }

  /**
   * Cancelling an owned operation whose worker goes on lets two workers overlap, without any further cancellation,
   * exactly when the service is still open.  The tools' lock still admits only one of them.
   */
  lemma CancellationDecides(c: Settings, events: seq<Event>, op: nat, stopped: bool)
    requires c.budget.Valid() && Settled(RunEvents(c, events)) && LeavesWorker(RunEvents(c, events), op, stopped)
    ensures CanOverlap(ApplyCancel(RunEvents(c, events), op, stopped), c) <==> !RunEvents(c, events).closed
  {
    Tools.RunKeeps(c, events);
    var s := RunEvents(c, events);
    CancelLeaves(s, c, op, stopped);
    if s.closed {
      ClosedCannotOverlap(ApplyCancel(s, op, stopped), c);
    } else {
      OpenCanOverlap(ApplyCancel(s, op, stopped), c, op, HashOf(s.workers[op].job));
    }
  }
}
