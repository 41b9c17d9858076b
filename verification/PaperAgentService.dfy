/**
 * The proposal lifecycle of the agent host over the submission journal: callers that wait, the one owned
 * operation, and the worker threads it leaves the blocking tools to.  A caller, an operation and a worker
 * can each end without the others.
 */
module PaperAgentService {
  import opened Basics
  import opened AccountLimits
  import opened Reservations
  import T = TradeSafety
  import R = TradeSafetyReceipts
  import O = OrderGuard
  import J = SubmissionJournal
  import P = SubmissionProtocol
  import L = AgentLane

  const FRESHNESS := 10.0
  const CAPACITY := 10_000

  /**
   * What an operator fixes for the life of a service.  The digests, the receipt verifier and the order guard
   * are functions of what they look at.
   */
  datatype Settings = Settings(
    limits: Limits, budget: Budget, capacity: nat, binding: O.Binding,
    nameOf: string -> string, hashOf: T.Request -> string,
    verifies: (R.Receipt, Instant) -> bool, authorizes: (T.Request, R.Receipt, Instant) -> bool)

  datatype Assessment = Assessment(proposal: Candidate, request: T.Request, requestHash: string, receipt: R.Receipt)

  datatype Action =
    | Assess(proposal: Candidate)
    | Submit(assessmentId: string)
    | LookUp(assessmentId: string, reconciling: bool)

  /** Where an owned operation is between two points at which others can run; queued, it has not taken a step. */
  datatype Pc =
    | Queued(action: Action)
    | AwaitingEvidence(proposal: Candidate, request: T.Request)
    | AwaitingPortfolio(a: Assessment)
    | AwaitingTool(requestHash: string, reconciling: bool)
    | Told(requestHash: string, reconciling: bool, brokerOrderId: Option<string>)
    | Done

  /** The tool call a worker thread was started for. */
  datatype Job =
    | SubmitJob(a: Assessment, portfolio: Portfolio, guardedAt: real)
    | LookUpJob(requestHash: string, reconciling: bool)

  /** How far a worker is: before the lock of the tools, inside it, and past the checks made there. */
  datatype Step =
    | Starting
    | Locked
    | Dispatched
    | Verified(at: Instant)
    | Checked(at: Instant, clock: real)

  datatype Worker = Worker(job: Job, step: Step)

  /** What was known when the broker was called, entry by entry of the protocol's log of broker calls. */
  datatype Guarded = Guarded(a: Assessment, portfolio: Portfolio, guardedAt: real, verifiedAt: Instant, checkedAt: real)

  /**
   * The tables, their unique index, and the journal and broker of the protocol are durable; what follows
   * `guards` is lost in a crash, as are the protocol's calls and claims.
   */
  datatype Service = Service(
    assessments: map<string, Assessment>, byHash: map<string, string>, reservations: seq<Reservation>,
    finished: set<string>, protocol: P.System, guards: seq<Guarded>,
    busy: bool, closed: bool, preflightAt: Option<real>,
    waiters: set<nat>, tasks: map<nat, Pc>, workers: map<nat, Worker>, lane: Option<nat>)

  datatype Event =
    | Run(op: nat, action: Action)
    | Disconnect(op: nat)
    | CancelOwned(op: nat, stopped: bool)
    | BeginAssess(op: nat, now: Instant)
    | FinishAssess(op: nat, receipt: R.Receipt, now: Instant)
    | BeginSubmit(op: nat, enabled: bool, profileOk: bool, now: Instant)
    | CheckAccount(op: nat, portfolio: Portfolio, preflight: real, check: real, enabled: bool, day: int)
    | BeginLookUp(op: nat)
    | Observe(op: nat, brokerOrderId: string, terminal: bool, accepted: bool)
    | Finish(op: nat)
    | Enter(op: nat)
    | Dispatch(op: nat, clock: real, enabled: bool)
    | Authorize(op: nat, at: Instant)
    | BeginSending(op: nat, clock: real, enabled: bool, now: Instant, fault: J.Fault)
    | Continue(op: nat, event: P.Event)
    | Leave(op: nat, raised: bool)
    | Close
    | Crash

  // ----- what the steps look at -----

  /** Execution is on and the account was checked in the last ten seconds. */
  predicate ExecutionEnabled(preflightAt: Option<real>, enabled: bool, clock: real) {
    enabled && preflightAt.Some? && 0.0 <= clock - preflightAt.value <= FRESHNESS
  }

  predicate Reserved(reservations: seq<Reservation>, requestHash: string) {
    exists i :: 0 <= i < |reservations| && reservations[i].requestHash == requestHash
  }

  /** A reservation without a terminal broker observation. */
  predicate AnyPending(reservations: seq<Reservation>, finished: set<string>) {
    exists i :: 0 <= i < |reservations| && reservations[i].requestHash !in finished
  }

  /** The assessment a hash belongs to. */
  function Lookup(s: Service, requestHash: string): Option<Assessment> {
    if requestHash in s.byHash && s.byHash[requestHash] in s.assessments then Some(s.assessments[s.byHash[requestHash]]) else None
  }

  /** The paper order that the host writes for a proposal; nothing in it but side and size is the agent's. */
  function RequestFor(c: Settings, proposal: Candidate, now: Instant): T.Request {
    var b := c.binding;
    T.Request("agent-" + c.nameOf(proposal.intentId), now, now + 90 * SECOND, T.Paper,
              T.Agent(b.agentId, b.operatorId, b.tenantId, b.accountId, b.runtime, b.strategyId, ["evidence:read", "orders:paper"]),
              T.Order("crypto", "BTC/USD", map[], proposal.side, T.Market, proposal.notional, "USD", None, None, None, None, "IOC"),
              b.policyId, b.policyVersion)
  }

  function ReservationFor(a: Assessment, day: int): Reservation {
    Reservation(a.proposal.intentId, day, a.requestHash, Some(a.proposal.side))
  }

  function HashOf(job: Job): string {
    match job
    case SubmitJob(a, _, _) => a.requestHash
    case LookUpJob(requestHash, _) => requestHash
  }

  /** What a tool's answer says of the broker's order: nothing when it is an error or there is no record. */
  function RecordedOrder(db: J.Db, requestHash: string): Option<string> {
    var got := J.GetSpec(db, requestHash);
    if got.Ok? && got.value.Some? then got.value.value.brokerOrderId else None
  }

  // ----- steps of the owned operation -----

  function Moved(s: Service, op: nat, pc: Pc): Service {
    s.(tasks := s.tasks[op := pc])
  }

  /** The finally clause of an owned operation; a worker it started is not its concern. */
  function Ended(s: Service, op: nat): Service {
    s.(tasks := s.tasks - {op}, waiters := s.waiters - {op}, preflightAt := None, busy := false)
  }

  /** Hands the blocking call to a worker thread and waits for it. */
  function Started(s: Service, op: nat, job: Job, reconciling: bool): Service {
    s.(tasks := s.tasks[op := AwaitingTool(HashOf(job), reconciling)], workers := s.workers[op := Worker(job, Starting)])
  }

  function ApplyRun(s: Service, op: nat, action: Action): Service {
    if s.closed || s.busy || op in s.tasks || op in s.workers then s
    else s.(busy := true, waiters := s.waiters + {op}, tasks := s.tasks[op := Queued(action)])
  }

  /** A task that never took its first step never reaches the finally clause: it is gone, and the lane stays taken. */
  function Stranded(s: Service, op: nat): Service {
    s.(tasks := s.tasks - {op}, waiters := s.waiters - {op})
  }

  /** The operation's own task is cancelled: a worker that has not begun may be stopped, any other goes on. */
  function ApplyCancel(s: Service, op: nat, stopped: bool): Service {
    if op !in s.tasks then s
    else if s.tasks[op].Queued? then Stranded(s, op)
    else if stopped && op in s.workers && s.workers[op].step.Starting? then Ended(s, op).(workers := s.workers - {op})
    else Ended(s, op)
  }

  /** An intent seen before is answered from its record, or refused; a new one goes to the evidence source. */
  function ApplyBeginAssess(s: Service, c: Settings, op: nat, now: Instant): Service {
    if op !in s.tasks || !s.tasks[op].Queued? || !s.tasks[op].action.Assess? then s
    else
      var proposal := s.tasks[op].action.proposal;
      if proposal.intentId in s.assessments || |s.assessments| >= CAPACITY then Moved(s, op, Done)
      else Moved(s, op, AwaitingEvidence(proposal, RequestFor(c, proposal, now)))
  }

  /** The insert has the intent as key and the request hash unique; a clash raises and changes nothing. */
  function ApplyFinishAssess(s: Service, c: Settings, op: nat, receipt: R.Receipt, now: Instant): Service {
    if op !in s.tasks || !s.tasks[op].AwaitingEvidence? then s
    else
      var proposal, request := s.tasks[op].proposal, s.tasks[op].request;
      var requestHash := c.hashOf(request);
      if !c.verifies(receipt, now) || receipt.request != request || receipt.policyHash != c.binding.policyHash
         || proposal.intentId in s.assessments || requestHash in s.byHash
      then Moved(s, op, Done)
      else
        Moved(s.(assessments := s.assessments[proposal.intentId := Assessment(proposal, request, requestHash, receipt)],
                 byHash := s.byHash[requestHash := proposal.intentId]), op, Done)
  }

  /** A request with a record or a reservation is only looked up; another waits until nothing is unresolved. */
  function ApplyBeginSubmit(s: Service, c: Settings, op: nat, enabled: bool, profileOk: bool, now: Instant): Service {
    if op !in s.tasks || !s.tasks[op].Queued? || !s.tasks[op].action.Submit? then s
    else
      var requestHash := s.tasks[op].action.assessmentId;
      var found, recorded := Lookup(s, requestHash), J.GetSpec(s.protocol.db, requestHash);
      if found.None? || recorded.Err? then Moved(s, op, Done)
      else if recorded.value.Some? || Reserved(s.reservations, requestHash) then
        Started(s, op, LookUpJob(requestHash, false), false)
      else if !enabled || L.AnyUnresolved(s.protocol.db.rows) || AnyPending(s.reservations, s.finished)
              || !c.verifies(found.value.receipt, now) || found.value.receipt.decision.outcome != T.Pass || !profileOk
      then Moved(s, op, Done)
      else Moved(s, op, AwaitingPortfolio(found.value))
  }

  /** Account limits on a fresh portfolio, the time of the check, the enable check, then the reservation. */
  function ApplyCheckAccount(s: Service, c: Settings, op: nat, portfolio: Portfolio, preflight: real, check: real,
                             enabled: bool, day: int): Service {
    if op !in s.tasks || !s.tasks[op].AwaitingPortfolio? then s
    else
      var a := s.tasks[op].a;
      if AccountGuard(c.limits, a.proposal, portfolio).Some? then Moved(s, op, Done)
      else
        var t := s.(preflightAt := Some(preflight));
        if !ExecutionEnabled(Some(preflight), enabled, check) then Moved(t, op, Done)
        else
          var (rows, ok) := ReserveSpec(s.reservations, ReservationFor(a, day), c.budget);
          if !ok then Moved(t, op, Done)
          else Started(t.(reservations := rows), op, SubmitJob(a, portfolio, preflight), false)
  }

  function ApplyBeginLookUp(s: Service, op: nat): Service {
    if op !in s.tasks || !s.tasks[op].Queued? || !s.tasks[op].action.LookUp? then s
    else
      var action := s.tasks[op].action;
      if Lookup(s, action.assessmentId).None? then Moved(s, op, Done)
      else Started(s, op, LookUpJob(action.assessmentId, action.reconciling), action.reconciling)
  }

  /** After a reconciliation: the broker's own order, if it is the one the journal has, is noted. */
  function ApplyObserve(s: Service, op: nat, brokerOrderId: string, terminal: bool, accepted: bool): Service {
    if && op in s.tasks && s.tasks[op].Told? && s.tasks[op].reconciling && s.tasks[op].brokerOrderId == Some(brokerOrderId)
       && Reserved(s.reservations, s.tasks[op].requestHash) && accepted
    then Moved(if terminal then s.(finished := s.finished + {s.tasks[op].requestHash}) else s, op, Done)
    else s
  }

  /** An operation ends by itself, or by an exception, but never while it waits for its worker. */
  function ApplyFinish(s: Service, op: nat): Service {
    if op in s.tasks && op !in s.workers then Ended(s, op) else s
  }

  // ----- steps of a worker -----

  function Advanced(s: Service, op: nat, step: Step): Service
    requires op in s.workers
  {
    s.(workers := s.workers[op := s.workers[op].(step := step)])
  }

  /** The worker is gone; an operation that still waits for it is told its answer. */
  function Answered(s: Service, op: nat, requestHash: string, brokerOrderId: Option<string>): Service {
    var t := s.(workers := s.workers - {op});
    if op in s.tasks && s.tasks[op].AwaitingTool?
    then Moved(t, op, Told(requestHash, s.tasks[op].reconciling, brokerOrderId)) else t
  }

  /** The lock is not waited for: a second worker is answered at once that the lane is busy. */
  function ApplyEnter(s: Service, op: nat): Service {
    if op !in s.workers || !s.workers[op].step.Starting? then s
    else if s.lane.Some? then Answered(s, op, HashOf(s.workers[op].job), None)
    else Advanced(s.(lane := Some(op)), op, Locked)
  }

  function Dispatching(s: Service, op: nat, clock: real, enabled: bool): P.System
    requires op in s.workers
  {
    match s.workers[op].job
    case SubmitJob(a, _, _) =>
      L.LaneApply(s.protocol, L.SubmitTool(op, a.requestHash, a.receipt.receiptId, a.receipt.expiresAt,
                                           ExecutionEnabled(s.preflightAt, enabled, clock)))
    case LookUpJob(requestHash, reconciling) =>
      if reconciling then L.LaneApply(s.protocol, L.ReconcileTool(op, requestHash)) else s.protocol
  }

  function ApplyDispatch(s: Service, op: nat, clock: real, enabled: bool): Service {
    if op !in s.workers || !s.workers[op].step.Locked? then s
    else Advanced(s.(protocol := Dispatching(s, op, clock, enabled)), op, Dispatched)
  }

  /** The order guard, before the receipt is claimed; what it turns down can only leave. */
  function ApplyAuthorize(s: Service, c: Settings, op: nat, at: Instant): Service {
    if op !in s.workers || !s.workers[op].step.Dispatched? || !s.workers[op].job.SubmitJob? then s
    else
      var a := s.workers[op].job.a;
      if c.authorizes(a.request, a.receipt, at) then Advanced(s, op, Verified(at)) else s
  }

  function SendingStep(s: Service, op: nat, clock: real, enabled: bool, now: Instant, fault: J.Fault): P.System {
    L.LaneApply(s.protocol, L.Continue(P.Begin(op, ExecutionEnabled(s.preflightAt, enabled, clock), now, fault)))
  }

  predicate IsCleared(p: P.System, op: nat) {
    op in p.calls && p.calls[op].pc.Cleared?
  }

  /** The last enable check, after all blocking work, then the journal's "submitting". */
  function ApplyBeginSending(s: Service, op: nat, clock: real, enabled: bool, now: Instant, fault: J.Fault): Service {
    if op !in s.workers || !s.workers[op].step.Verified? then s
    else
      var t := s.(protocol := SendingStep(s, op, clock, enabled, now, fault));
      if IsCleared(t.protocol, op) then Advanced(t, op, Checked(s.workers[op].step.at, clock)) else t
  }

  /** The protocol events a worker causes with no further check: the claim only once the guard has passed. */
  predicate WorkerMay(w: Worker, op: nat, e: P.Event) {
    match e
    case Consume(call, _, _, _) => call == op && w.step.Verified?
    case Send(call, _, _) => call == op
    case MarkSubmitted(call, _, _) => call == op
    case MarkUncertain(call, _, _, _) => call == op
    case ResolveClaim(call, _, _) => call == op
    case Lookup(call, _) => call == op
    case RecordOrder(call, _, _) => call == op
    case _ => false
  }

  function GuardOf(w: Worker): seq<Guarded> {
    if w.job.SubmitJob? && w.step.Checked?
    then [Guarded(w.job.a, w.job.portfolio, w.job.guardedAt, w.step.at, w.step.clock)] else []
  }

  function ApplyContinue(s: Service, op: nat, e: P.Event): Service {
    if op !in s.workers || s.lane != Some(op) || !WorkerMay(s.workers[op], op, e) then s
    else
      var p := L.LaneApply(s.protocol, L.Continue(e));
      s.(protocol := p, guards := if p.sent == s.protocol.sent then s.guards else s.guards + GuardOf(s.workers[op]))
  }

  /** The lock is released however the tool call ended. */
  function ApplyLeave(s: Service, op: nat, raised: bool): Service {
    if op !in s.workers || s.lane != Some(op) then s
    else
      var requestHash := HashOf(s.workers[op].job);
      var t := s.(protocol := L.LaneApply(s.protocol, L.Continue(P.Abandon(op))), lane := None);
      Answered(t, op, requestHash, if raised then None else RecordedOrder(s.protocol.db, requestHash))
  }

  // ----- runs -----

  function Apply(s: Service, c: Settings, e: Event): Service {
    match e
    case Run(op, action) => ApplyRun(s, op, action)
    case Disconnect(op) => s.(waiters := s.waiters - {op})
    case CancelOwned(op, stopped) => ApplyCancel(s, op, stopped)
    case BeginAssess(op, now) => ApplyBeginAssess(s, c, op, now)
    case FinishAssess(op, receipt, now) => ApplyFinishAssess(s, c, op, receipt, now)
    case BeginSubmit(op, enabled, profileOk, now) => ApplyBeginSubmit(s, c, op, enabled, profileOk, now)
    case CheckAccount(op, portfolio, preflight, check, enabled, day) =>
      ApplyCheckAccount(s, c, op, portfolio, preflight, check, enabled, day)
    case BeginLookUp(op) => ApplyBeginLookUp(s, op)
    case Observe(op, brokerOrderId, terminal, accepted) => ApplyObserve(s, op, brokerOrderId, terminal, accepted)
    case Finish(op) => ApplyFinish(s, op)
    case Enter(op) => ApplyEnter(s, op)
    case Dispatch(op, clock, enabled) => ApplyDispatch(s, op, clock, enabled)
    case Authorize(op, at) => ApplyAuthorize(s, c, op, at)
    case BeginSending(op, clock, enabled, now, fault) => ApplyBeginSending(s, op, clock, enabled, now, fault)
    case Continue(op, event) => ApplyContinue(s, op, event)
    case Leave(op, raised) => ApplyLeave(s, op, raised)
    case Close => s.(closed := true)
    case Crash =>
      s.(protocol := L.LaneApply(s.protocol, L.Restart), busy := false, closed := false, preflightAt := None,
         waiters := {}, tasks := map[], workers := map[], lane := None)
  }

  function Fresh(c: Settings): Service {
    Service(map[], map[], [], {}, P.Initial(c.capacity), [], false, false, None, {}, map[], map[], None)
  }

  function RunFrom(s: Service, c: Settings, events: seq<Event>): Service
    decreases |events|
  {
    if events == [] then s else Apply(RunFrom(s, c, events[..|events| - 1]), c, events[|events| - 1])
  }

  function RunEvents(c: Settings, events: seq<Event>): Service {
    RunFrom(Fresh(c), c, events)
  }

  // ----- the service object -----

  /** The service between two points at which others can run: each method is one uninterrupted stretch. */
  class AgentService {
    const settings: Settings
    const store: CycleStore
    var assessments: map<string, Assessment>
    var byHash: map<string, string>
    var finished: set<string>
    var protocol: P.System
    var guards: seq<Guarded>
    var busy: bool
    var closed: bool
    var preflightAt: Option<real>
    var waiters: set<nat>
    var tasks: map<nat, Pc>
    var workers: map<nat, Worker>
    var lane: Option<nat>

    constructor (settings: Settings, store: CycleStore)
      requires store.rows == []
      ensures this.settings == settings && this.store == store && View() == Fresh(settings)
    {
      this.settings, this.store := settings, store;
      assessments, byHash, finished, protocol, guards := map[], map[], {}, P.Initial(settings.capacity), [];
      busy, closed, preflightAt, waiters, tasks, workers, lane := false, false, None, {}, map[], map[], None;
    }

    function View(): Service
      reads this, store
    {
      Service(assessments, byHash, store.rows, finished, protocol, guards, busy, closed, preflightAt, waiters, tasks, workers, lane)
    }

    /** A caller's request: refused while another operation is owned, whoever is still waiting for it. */
    method RunOperation(op: nat, action: Action) returns (accepted: bool)
      requires op !in tasks && op !in workers
      modifies this
      ensures View() == ApplyRun(old(View()), op, action)
      ensures accepted <==> !old(closed) && !old(busy)
    {
      if closed || busy {
        return false;
      }
      busy := true;
      waiters := waiters + {op};
      tasks := tasks[op := Queued(action)];
      return true;
    }

    /** After the evidence source answered: one row per intent and per request hash, or none. */
    method RecordAssessment(op: nat, receipt: R.Receipt, now: Instant)
      requires op in tasks && tasks[op].AwaitingEvidence?
      modifies this
      ensures View() == ApplyFinishAssess(old(View()), settings, op, receipt, now)
    {
      var proposal, request := tasks[op].proposal, tasks[op].request;
      tasks := tasks[op := Done];
      if !settings.verifies(receipt, now) || receipt.request != request || receipt.policyHash != settings.binding.policyHash {
        return;
      }
      var requestHash := settings.hashOf(request);
      if proposal.intentId in assessments || requestHash in byHash {
        return;
      }
      assessments := assessments[proposal.intentId := Assessment(proposal, request, requestHash, receipt)];
      byHash := byHash[requestHash := proposal.intentId];
    }

    /** After the broker's portfolio arrived: limits, the time of the check, the enable check, the reservation. */
    method CheckAndReserve(op: nat, portfolio: Portfolio, preflight: real, check: real, enabled: bool, day: int)
      requires op in tasks && tasks[op].AwaitingPortfolio?
      modifies this, store
      ensures View() == ApplyCheckAccount(old(View()), settings, op, portfolio, preflight, check, enabled, day)
    {
      var a := tasks[op].a;
      tasks := tasks[op := Done];
      if AccountGuard(settings.limits, a.proposal, portfolio).Some? {
        return;
      }
      preflightAt := Some(preflight);
      if !(enabled && 0.0 <= check - preflight <= FRESHNESS) {
        return;
      }
      var ok := store.Reserve(ReservationFor(a, day), settings.budget);
      if ok {
        tasks := tasks[op := AwaitingTool(a.requestHash, false)];
        workers := workers[op := Worker(SubmitJob(a, portfolio, preflight), Starting)];
      }
    }

    /** A worker asks for the lock of the tools, and is answered at once if another has it. */
    method EnterLane(op: nat) returns (entered: bool)
      requires op in workers && workers[op].step.Starting?
      modifies this
      ensures View() == ApplyEnter(old(View()), op)
      ensures entered <==> old(lane).None?
    {
      if lane.Some? {
        if op in tasks && tasks[op].AwaitingTool? {
          tasks := tasks[op := Told(HashOf(workers[op].job), tasks[op].reconciling, None)];
        }
        workers := workers - {op};
        return false;
      }
      lane := Some(op);
      workers := workers[op := workers[op].(step := Locked)];
      return true;
    }

    /** In the worker, after the receipt was claimed: the last enable check, then the journal's "submitting". */
    method BeginIfEnabled(op: nat, clock: real, enabled: bool, now: Instant, fault: J.Fault) returns (cleared: bool)
      requires op in workers && workers[op].step.Verified?
      modifies this
      ensures View() == ApplyBeginSending(old(View()), op, clock, enabled, now, fault)
      ensures cleared <==> IsCleared(protocol, op)
    {
      var on := enabled && preflightAt.Some? && 0.0 <= clock - preflightAt.value <= FRESHNESS;
      protocol := L.LaneApply(protocol, L.Continue(P.Begin(op, on, now, fault)));
      cleared := IsCleared(protocol, op);
      if cleared {
        workers := workers[op := workers[op].(step := Checked(workers[op].step.at, clock))];
      }
    }

    /** The finally clause, however the operation ended and whether or not its caller still waits. */
    method FinishOperation(op: nat)
      requires op in tasks && op !in workers
      modifies this
      ensures View() == ApplyFinish(old(View()), op)
    {
      tasks := tasks - {op};
      waiters := waiters - {op};
      preflightAt := None;
      busy := false;
    }

    /**
     * The same finally clause when the operation's own task is cancelled; it does not wait for the worker.  A task
     * cancelled before its first step has not entered the clause, and leaves the service busy.
     */
    method CancelOperation(op: nat, stopped: bool)
      requires op in tasks
      modifies this
      ensures View() == ApplyCancel(old(View()), op, stopped)
    {
      var begun := !tasks[op].Queued?;
      tasks := tasks - {op};
      waiters := waiters - {op};
      if begun {
        if stopped && op in workers && workers[op].step.Starting? {
          workers := workers - {op};
        }
        preflightAt := None;
        busy := false;
      }
    }
  }

  // ----- steps of an operation stay outside the lane -----

  /** The ways a submission begins. */
  lemma BeginSubmitCases(s: Service, c: Settings, op: nat, enabled: bool, profileOk: bool, now: Instant)
    requires op in s.tasks && s.tasks[op].Queued? && s.tasks[op].action.Submit?
    ensures var requestHash, t := s.tasks[op].action.assessmentId, ApplyBeginSubmit(s, c, op, enabled, profileOk, now);
            || t == Moved(s, op, Done)
            || (Lookup(s, requestHash).Some? && t == Started(s, op, LookUpJob(requestHash, false), false))
            || (Lookup(s, requestHash).Some? && !AnyPending(s.reservations, s.finished)
                && t == Moved(s, op, AwaitingPortfolio(Lookup(s, requestHash).value)))
  {
  }

  /** The three ways an account check ends. */
  lemma CheckAccountCases(s: Service, c: Settings, op: nat, portfolio: Portfolio, preflight: real, check: real,
                          enabled: bool, day: int)
    requires op in s.tasks && s.tasks[op].AwaitingPortfolio?
    ensures var a, t := s.tasks[op].a, ApplyCheckAccount(s, c, op, portfolio, preflight, check, enabled, day);
            var noted := Moved(s, op, Done).(preflightAt := Some(preflight));
            || t == Moved(s, op, Done) || t == noted
            || (AccountGuard(c.limits, a.proposal, portfolio).None?
                && ReserveSpec(s.reservations, ReservationFor(a, day), c.budget).1
                && t == Started(noted.(reservations := s.reservations + [ReservationFor(a, day)]), op,
                                SubmitJob(a, portfolio, preflight), false))
  {
    var pc := AwaitingTool(s.tasks[op].a.requestHash, false);
    assert s.tasks[op := Done][op := pc] == s.tasks[op := pc];
  }

  predicate IsOperationStep(e: Event) {
    e.BeginAssess? || e.FinishAssess? || e.BeginSubmit? || e.CheckAccount? || e.BeginLookUp? || e.Observe?
  }

  /** The journal and the broker are not touched, and the same operation owns the service. */
  predicate OutsideLane(s: Service, t: Service) {
    t.protocol == s.protocol && t.busy == s.busy && t.closed == s.closed && t.tasks.Keys == s.tasks.Keys
  }

  lemma MovedOutside(s: Service, op: nat, pc: Pc)
    requires op in s.tasks
    ensures OutsideLane(s, Moved(s, op, pc)) && Moved(s, op, pc).assessments == s.assessments
  {
  }

  lemma StartedOutside(s: Service, op: nat, job: Job, reconciling: bool)
    requires op in s.tasks
    ensures OutsideLane(s, Started(s, op, job, reconciling)) && Started(s, op, job, reconciling).assessments == s.assessments
  {
  }

  lemma BeginAssessOutside(s: Service, c: Settings, op: nat, now: Instant)
    ensures OutsideLane(s, ApplyBeginAssess(s, c, op, now)) && ApplyBeginAssess(s, c, op, now).assessments == s.assessments
  {
  }

  lemma FinishAssessOutside(s: Service, c: Settings, op: nat, receipt: R.Receipt, now: Instant)
    ensures OutsideLane(s, ApplyFinishAssess(s, c, op, receipt, now))
  {
  }

  lemma BeginSubmitOutside(s: Service, c: Settings, op: nat, enabled: bool, profileOk: bool, now: Instant)
    ensures var t := ApplyBeginSubmit(s, c, op, enabled, profileOk, now); OutsideLane(s, t) && t.assessments == s.assessments
  {
    if op in s.tasks && s.tasks[op].Queued? && s.tasks[op].action.Submit? {
      var requestHash := s.tasks[op].action.assessmentId;
      BeginSubmitCases(s, c, op, enabled, profileOk, now);
      MovedOutside(s, op, Done);
      StartedOutside(s, op, LookUpJob(requestHash, false), false);
      if Lookup(s, requestHash).Some? {
        MovedOutside(s, op, AwaitingPortfolio(Lookup(s, requestHash).value));
      }
    }
  }

  lemma CheckAccountOutside(s: Service, c: Settings, op: nat, portfolio: Portfolio, preflight: real, check: real,
                            enabled: bool, day: int)
    ensures var t := ApplyCheckAccount(s, c, op, portfolio, preflight, check, enabled, day);
            OutsideLane(s, t) && t.assessments == s.assessments
  {
    if op in s.tasks && s.tasks[op].AwaitingPortfolio? {
      var a := s.tasks[op].a;
      var noted := Moved(s, op, Done).(preflightAt := Some(preflight));
      CheckAccountCases(s, c, op, portfolio, preflight, check, enabled, day);
      MovedOutside(s, op, Done);
      StartedOutside(noted.(reservations := s.reservations + [ReservationFor(a, day)]), op, SubmitJob(a, portfolio, preflight), false);
    }
  }

  lemma LookUpOutside(s: Service, op: nat)
    ensures OutsideLane(s, ApplyBeginLookUp(s, op)) && ApplyBeginLookUp(s, op).assessments == s.assessments
  {
    if op in s.tasks && s.tasks[op].Queued? && s.tasks[op].action.LookUp? {
      var action := s.tasks[op].action;
      MovedOutside(s, op, Done);
      StartedOutside(s, op, LookUpJob(action.assessmentId, action.reconciling), action.reconciling);
    }
  }

  lemma ObserveOutside(s: Service, op: nat, brokerOrderId: string, terminal: bool, accepted: bool)
    ensures var t := ApplyObserve(s, op, brokerOrderId, terminal, accepted); OutsideLane(s, t) && t.assessments == s.assessments
  {
  }

  lemma OperationStaysOutside(s: Service, c: Settings, e: Event)
    requires IsOperationStep(e)
    ensures OutsideLane(s, Apply(s, c, e)) && (!e.FinishAssess? ==> Apply(s, c, e).assessments == s.assessments)
  {
    match e
    case BeginAssess(op, now) => BeginAssessOutside(s, c, op, now);
    case FinishAssess(op, receipt, now) => FinishAssessOutside(s, c, op, receipt, now);
    case BeginSubmit(op, enabled, profileOk, now) => BeginSubmitOutside(s, c, op, enabled, profileOk, now);
    case CheckAccount(op, portfolio, preflight, check, enabled, day) =>
      CheckAccountOutside(s, c, op, portfolio, preflight, check, enabled, day);
    case BeginLookUp(op) => LookUpOutside(s, op);
    case Observe(op, brokerOrderId, terminal, accepted) => ObserveOutside(s, op, brokerOrderId, terminal, accepted);
  }

  lemma EnterLeavesProtocol(s: Service, op: nat)
    ensures ApplyEnter(s, op).protocol == s.protocol
  {
  }

  // ----- the tools keep to the serialized lane -----

  /** The lane event of a step, if it is one. */
  function LaneEventsOf(s: Service, c: Settings, e: Event): seq<L.LaneEvent> {
    match e
    case Dispatch(op, clock, enabled) =>
      if op !in s.workers || !s.workers[op].step.Locked? then []
      else if s.workers[op].job.SubmitJob? then
        var a := s.workers[op].job.a;
        [L.SubmitTool(op, a.requestHash, a.receipt.receiptId, a.receipt.expiresAt, ExecutionEnabled(s.preflightAt, enabled, clock))]
      else if s.workers[op].job.reconciling then [L.ReconcileTool(op, s.workers[op].job.requestHash)]
      else []
    case BeginSending(op, clock, enabled, now, fault) =>
      if op !in s.workers || !s.workers[op].step.Verified? then []
      else [L.Continue(P.Begin(op, ExecutionEnabled(s.preflightAt, enabled, clock), now, fault))]
    case Continue(op, event) =>
      if op !in s.workers || s.lane != Some(op) || !WorkerMay(s.workers[op], op, event) then [] else [L.Continue(event)]
    case Leave(op, _) => if op !in s.workers || s.lane != Some(op) then [] else [L.Continue(P.Abandon(op))]
    case Crash => [L.Restart]
    case _ => []
  }

  function LaneTrace(c: Settings, events: seq<Event>): seq<L.LaneEvent>
    decreases |events|
  {
    if events == [] then []
    else
      var before := events[..|events| - 1];
      LaneTrace(c, before) + LaneEventsOf(RunEvents(c, before), c, events[|events| - 1])
  }

  lemma LaneRunOne(p: P.System, xs: seq<L.LaneEvent>)
    requires |xs| == 1
    ensures L.LaneRun(p, xs) == L.LaneApply(p, xs[0])
  {
    assert xs[1..] == [];
  }

  lemma StepIsLaneStep(s: Service, c: Settings, e: Event)
    ensures Apply(s, c, e).protocol == L.LaneRun(s.protocol, LaneEventsOf(s, c, e))
  {
    if e.Dispatch? {
      DispatchIsLaneStep(s, c, e);
    } else {
      OtherIsLaneStep(s, c, e);
    }
  }

  lemma DispatchIsLaneStep(s: Service, c: Settings, e: Event)
    requires e.Dispatch?
    ensures Apply(s, c, e).protocol == L.LaneRun(s.protocol, LaneEventsOf(s, c, e))
  {
    if LaneEventsOf(s, c, e) != [] {
      LaneRunOne(s.protocol, LaneEventsOf(s, c, e));
    }
  }

  lemma OtherIsLaneStep(s: Service, c: Settings, e: Event)
    requires !e.Dispatch?
    ensures Apply(s, c, e).protocol == L.LaneRun(s.protocol, LaneEventsOf(s, c, e))
  {
    if LaneEventsOf(s, c, e) == [] {
      NoLaneStep(s, c, e);
    } else {
      LaneRunOne(s.protocol, LaneEventsOf(s, c, e));
    }
  }

  lemma NoLaneStep(s: Service, c: Settings, e: Event)
    requires !e.Dispatch? && LaneEventsOf(s, c, e) == []
    ensures Apply(s, c, e).protocol == s.protocol
  {
    if IsOperationStep(e) {
      OperationStaysOutside(s, c, e);
    } else if e.Enter? {
      EnterLeavesProtocol(s, e.op);
    }
  }

  lemma {:induction false} LaneRunAppend(p: P.System, xs: seq<L.LaneEvent>, ys: seq<L.LaneEvent>)
    ensures L.LaneRun(p, xs + ys) == L.LaneRun(L.LaneRun(p, xs), ys)
    decreases |xs|
  {
    if xs == [] {
      assert xs + ys == ys;
    } else {
      assert (xs + ys)[1..] == xs[1..] + ys;
      LaneRunAppend(L.LaneApply(p, xs[0]), xs[1..], ys);
    }
  }

  /** Every run of the service drives the journal and the broker as some run of the serialized tool lane does. */
  lemma {:induction false} ServiceRunsTheLane(c: Settings, events: seq<Event>)
    ensures RunEvents(c, events).protocol == L.LaneRun(P.Initial(c.capacity), LaneTrace(c, events))
    decreases |events|
  {
    if events != [] {
      var before := events[..|events| - 1];
      ServiceRunsTheLane(c, before);
      StepIsLaneStep(RunEvents(c, before), c, events[|events| - 1]);
      LaneRunAppend(P.Initial(c.capacity), LaneTrace(c, before), LaneEventsOf(RunEvents(c, before), c, events[|events| - 1]));
    }
  }
}
