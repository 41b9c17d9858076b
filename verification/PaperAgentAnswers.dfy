/**
 * What each step of the agent host does and exactly when, in terms of the tables, the operation and the worker it finds:
 * what is written, what is handed to the tools, and what ends the operation with nothing written.
 */
module PaperAgentAnswers {
  import opened Basics
  import opened AccountLimits
  import opened Reservations
  import T = TradeSafety
  import R = TradeSafetyReceipts
  import J = SubmissionJournal
  import P = SubmissionProtocol
  import L = AgentLane
  import opened PaperAgentService

  // ----- taking and leaving the service -----

  /** A request is taken exactly when the service is open and idle; only then does anything change. */
  lemma TakenExactlyWhen(s: Service, op: nat, action: Action)
    requires op !in s.tasks && op !in s.workers
    ensures ApplyRun(s, op, action)
         == if s.closed || s.busy then s
            else s.(busy := true, waiters := s.waiters + {op}, tasks := s.tasks[op := Queued(action)])
  {
  }

  /**
   * Cancelling an operation: before its first step the lane stays taken; afterwards the account check is forgotten and
   * the service free, and the worker goes on unless it had not begun and was stopped.
   */
  lemma CancelledExactly(s: Service, op: nat, stopped: bool)
    requires op in s.tasks
    ensures var t := ApplyCancel(s, op, stopped);
            && t.tasks == s.tasks - {op} && t.waiters == s.waiters - {op}
            && (s.tasks[op].Queued? ==> t.busy == s.busy && t.preflightAt == s.preflightAt && t.workers == s.workers)
            && (!s.tasks[op].Queued? ==> !t.busy && t.preflightAt == None)
            && (!s.tasks[op].Queued? ==>
                  t.workers == if stopped && op in s.workers && s.workers[op].step == Starting then s.workers - {op} else s.workers)
            && t == s.(tasks := t.tasks, waiters := t.waiters, busy := t.busy, preflightAt := t.preflightAt, workers := t.workers)
  {
  }

  lemma FinishedExactly(s: Service, op: nat)
    ensures ApplyFinish(s, op)
         == if op in s.tasks && op !in s.workers
            then s.(tasks := s.tasks - {op}, waiters := s.waiters - {op}, preflightAt := None, busy := false) else s
  {
  }

  // ----- assessing -----

  /** The operation is over, with nothing written. */
  ghost predicate Over(s: Service, op: nat, t: Service) {
    t == s.(tasks := s.tasks[op := Done])
  }

  /** The market order for this proposal, valid for 90 seconds; nothing in it but side and size is the agent's. */
  ghost predicate AsksFor(c: Settings, proposal: Candidate, now: Instant, r: T.Request) {
    && r.requestId == "agent-" + c.nameOf(proposal.intentId) && r.createdAt == now && r.expiresAt == now + 90_000_000
    && r.mode == T.Paper && r.policyId == c.binding.policyId && r.policyVersion == c.binding.policyVersion
    && r.agent == T.Agent(c.binding.agentId, c.binding.operatorId, c.binding.tenantId, c.binding.accountId, c.binding.runtime,
                          c.binding.strategyId, ["evidence:read", "orders:paper"])
    && r.order == T.Order("crypto", "BTC/USD", map[], proposal.side, T.Market, proposal.notional, "USD", None, None, None, None, "IOC")
  }

  /** The evidence source is asked exactly for an intent without a record, while the table has room. */
  lemma AskedExactlyWhen(s: Service, c: Settings, op: nat, proposal: Candidate, now: Instant)
    requires op in s.tasks && s.tasks[op] == Queued(Assess(proposal))
    ensures var t := ApplyBeginAssess(s, c, op, now);
            if proposal.intentId in s.assessments || |s.assessments| >= 10_000 then Over(s, op, t)
            else
              && op in t.tasks && t.tasks[op].AwaitingEvidence? && t.tasks[op].proposal == proposal
              && AsksFor(c, proposal, now, t.tasks[op].request) && t == s.(tasks := s.tasks[op := t.tasks[op]])
  {
  }

  /**
   * An answer is recorded exactly when it verifies now, is for this request and the pinned policy, and neither intent
   * nor hash is taken.
   */
  lemma RecordedExactlyWhen(s: Service, c: Settings, op: nat, receipt: R.Receipt, now: Instant)
    requires op in s.tasks && s.tasks[op].AwaitingEvidence?
    ensures var t := ApplyFinishAssess(s, c, op, receipt, now);
            var proposal, request := s.tasks[op].proposal, s.tasks[op].request;
            if && c.verifies(receipt, now) && receipt.request == request && receipt.policyHash == c.binding.policyHash
               && proposal.intentId !in s.assessments && c.hashOf(request) !in s.byHash
            then t == s.(assessments := s.assessments[proposal.intentId := Assessment(proposal, request, c.hashOf(request), receipt)],
                         byHash := s.byHash[c.hashOf(request) := proposal.intentId], tasks := s.tasks[op := Done])
            else Over(s, op, t)
  {
  }

  // ----- submitting -----

  /** A worker is started for a job, and the operation waits for it. */
  ghost predicate HandedOver(s: Service, op: nat, job: Job, requestHash: string, reconciling: bool, t: Service) {
    t == s.(tasks := s.tasks[op := AwaitingTool(requestHash, reconciling)], workers := s.workers[op := Worker(job, Starting)])
  }

  /** No reservation is without a terminal observation, and no row of the journal is claimed, submitting or uncertain. */
  ghost predicate NothingOpen(s: Service) {
    && (forall i :: 0 <= i < |s.reservations| ==> s.reservations[i].requestHash in s.finished)
    && (forall h :: h in s.protocol.db.rows ==> s.protocol.db.rows[h].state in {J.Submitted, J.Reconciled})
  }

  ghost predicate Known(s: Service, requestHash: string) {
    requestHash in s.byHash && s.byHash[requestHash] in s.assessments
  }

  /**
   * A submission asks for the portfolio exactly for a known assessment that the journal has no record of and no
   * reservation names, while execution is on and nothing is open, under a receipt that verifies now and passed.  A
   * request with a record or a reservation is looked up; anything else ends the operation.
   */
  lemma SubmissionBegunExactlyWhen(s: Service, c: Settings, op: nat, requestHash: string, enabled: bool, profileOk: bool, now: Instant)
    requires op in s.tasks && s.tasks[op] == Queued(Submit(requestHash))
    ensures var t := ApplyBeginSubmit(s, c, op, enabled, profileOk, now);
            var recorded := J.GetSpec(s.protocol.db, requestHash);
            var reserved := exists i :: 0 <= i < |s.reservations| && s.reservations[i].requestHash == requestHash;
            if !Known(s, requestHash) || recorded.Err? then Over(s, op, t)
            else if recorded.value.Some? || reserved then HandedOver(s, op, LookUpJob(requestHash, false), requestHash, false, t)
            else
              var a := s.assessments[s.byHash[requestHash]];
              if && enabled && NothingOpen(s) && c.verifies(a.receipt, now) && a.receipt.decision.outcome == T.Pass && profileOk
              then t == s.(tasks := s.tasks[op := AwaitingPortfolio(a)])
              else Over(s, op, t)
  {
    OpenExactlyWhen(s);
  }

  lemma OpenExactlyWhen(s: Service)
    ensures !L.AnyUnresolved(s.protocol.db.rows) && !AnyPending(s.reservations, s.finished) <==> NothingOpen(s)
  {
    forall h | h in s.protocol.db.rows
      ensures J.Unresolved(s.protocol.db.rows[h]) <==> s.protocol.db.rows[h].state !in {J.Submitted, J.Reconciled}
    {
      match s.protocol.db.rows[h].state
      case Claimed =>
      case Submitting =>
      case Submitted =>
      case Uncertain =>
      case Reconciled =>
    }
  }

  /** Execution is on, and the account was checked no more than ten seconds ago. */
  predicate MayExecute(preflightAt: Option<real>, enabled: bool, clock: real) {
    enabled && preflightAt.Some? && preflightAt.value <= clock <= preflightAt.value + 10.0
  }

  /**
   * The submission is handed to the tools exactly when the account allows it, execution is still on within ten seconds
   * of that check, and the reservation is made; the check is noted as soon as the account allows it.
   */
  lemma HandedOverExactlyWhen(s: Service, c: Settings, op: nat, portfolio: Portfolio, preflight: real, check: real, enabled: bool,
                              day: int)
    requires op in s.tasks && s.tasks[op].AwaitingPortfolio?
    ensures var t := ApplyCheckAccount(s, c, op, portfolio, preflight, check, enabled, day);
            var a := s.tasks[op].a;
            var row := Reservation(a.proposal.intentId, day, a.requestHash, Some(a.proposal.side));
            var (rows, ok) := ReserveSpec(s.reservations, row, c.budget);
            var noted := s.(preflightAt := Some(preflight));
            if AccountGuard(c.limits, a.proposal, portfolio).Some? then Over(s, op, t)
            else if MayExecute(Some(preflight), enabled, check) && ok then
              HandedOver(noted.(reservations := rows), op, SubmitJob(a, portfolio, preflight), a.requestHash, false, t)
            else Over(noted, op, t)
  {
  }

  lemma LookUpBegunExactlyWhen(s: Service, op: nat, requestHash: string, reconciling: bool)
    requires op in s.tasks && s.tasks[op] == Queued(LookUp(requestHash, reconciling))
    ensures var t := ApplyBeginLookUp(s, op);
            if Known(s, requestHash) then HandedOver(s, op, LookUpJob(requestHash, reconciling), requestHash, reconciling, t)
            else Over(s, op, t)
  {
  }

  /**
   * A terminal observation is noted exactly after a reconciliation of a reserved request, of an order that the account
   * reader accepts and that is the one in the tool's answer.
   */
  lemma ObservedExactlyWhen(s: Service, op: nat, brokerOrderId: string, terminal: bool, accepted: bool)
    requires op in s.tasks
    ensures var t := ApplyObserve(s, op, brokerOrderId, terminal, accepted);
            if && s.tasks[op].Told? && s.tasks[op].reconciling && s.tasks[op].brokerOrderId == Some(brokerOrderId) && accepted
               && (exists i :: 0 <= i < |s.reservations| && s.reservations[i].requestHash == s.tasks[op].requestHash)
            then t == s.(finished := if terminal then s.finished + {s.tasks[op].requestHash} else s.finished,
                         tasks := s.tasks[op := Done])
            else t == s
  {
  }

  // ----- workers -----

  /** A worker is gone, and an operation that still waits for it is told what it answered. */
  ghost predicate Reported(s: Service, op: nat, requestHash: string, brokerOrderId: Option<string>, t: Service) {
    t == s.(workers := s.workers - {op},
            tasks := if op in s.tasks && s.tasks[op].AwaitingTool?
                     then s.tasks[op := Told(requestHash, s.tasks[op].reconciling, brokerOrderId)] else s.tasks)
  }

  predicate IsJobFor(job: Job, requestHash: string) {
    match job
    case SubmitJob(a, _, _) => a.requestHash == requestHash
    case LookUpJob(h, _) => h == requestHash
  }

  ghost predicate Steps(s: Service, op: nat, step: Step, t: Service)
    requires op in s.workers
  {
    t == s.(workers := s.workers[op := Worker(s.workers[op].job, step)])
  }

  /** A worker enters exactly when the lock is free; otherwise it is gone at once, with no answer about an order. */
  lemma EnteredExactlyWhen(s: Service, op: nat, requestHash: string)
    requires op in s.workers && s.workers[op].step == Starting && IsJobFor(s.workers[op].job, requestHash)
    ensures var t := ApplyEnter(s, op);
            if s.lane == None then Steps(s.(lane := Some(op)), op, Locked, t) else Reported(s, op, requestHash, None, t)
  {
  }

  /** Inside the lock a submission or a reconciliation is put to the journal's lane; a plain lookup is not. */
  lemma DispatchedExactly(s: Service, op: nat, clock: real, enabled: bool)
    requires op in s.workers && s.workers[op].step == Locked
    ensures var t := ApplyDispatch(s, op, clock, enabled);
            match s.workers[op].job
            case SubmitJob(a, _, _) =>
              Steps(s.(protocol := L.LaneApply(s.protocol, L.SubmitTool(op, a.requestHash, a.receipt.receiptId, a.receipt.expiresAt,
                                                                        MayExecute(s.preflightAt, enabled, clock)))), op, Dispatched, t)
            case LookUpJob(requestHash, reconciling) =>
              Steps(if reconciling then s.(protocol := L.LaneApply(s.protocol, L.ReconcileTool(op, requestHash))) else s, op,
                    Dispatched, t)
  {
    EnablingMeans(s, enabled, clock);
  }

  lemma EnablingMeans(s: Service, enabled: bool, clock: real)
    ensures ExecutionEnabled(s.preflightAt, enabled, clock) <==> MayExecute(s.preflightAt, enabled, clock)
  {
  }

  /** The order guard is asked once, after the dispatch of a submission; what it turns down stays where it is. */
  lemma AuthorizedExactlyWhen(s: Service, c: Settings, op: nat, at: Instant)
    requires op in s.workers
    ensures var t := ApplyAuthorize(s, c, op, at);
            if && s.workers[op].step == Dispatched && s.workers[op].job.SubmitJob?
               && c.authorizes(s.workers[op].job.a.request, s.workers[op].job.a.receipt, at)
            then Steps(s, op, Verified(at), t) else t == s
  {
  }

  /** The last enable check is the journal's: the worker goes on exactly when the attempt was begun. */
  lemma ClearedExactlyWhen(s: Service, op: nat, clock: real, enabled: bool, now: Instant, fault: J.Fault)
    requires op in s.workers && s.workers[op].step.Verified?
    ensures var t := ApplyBeginSending(s, op, clock, enabled, now, fault);
            var next := P.Apply(s.protocol, P.Begin(op, MayExecute(s.preflightAt, enabled, clock), now, fault));
            if op in next.calls && next.calls[op].pc.Cleared?
            then Steps(s.(protocol := next), op, Checked(s.workers[op].step.at, clock), t) else t == s.(protocol := next)
  {
    EnablingMeans(s, enabled, clock);
  }

  /** A worker inside the lock acts on its own call only, and claims the receipt only once the guard has passed. */
  lemma ActsExactlyWhen(s: Service, op: nat, e: P.Event)
    requires op in s.workers
    ensures var t := ApplyContinue(s, op, e);
            var may := match e
                       case Consume(call, _, _, _) => call == op && s.workers[op].step.Verified?
                       case Send(call, _, _) => call == op
                       case MarkSubmitted(call, _, _) => call == op
                       case MarkUncertain(call, _, _, _) => call == op
                       case ResolveClaim(call, _, _) => call == op
                       case Lookup(call, _) => call == op
                       case RecordOrder(call, _, _) => call == op
                       case _ => false;
            if s.lane == Some(op) && may then
              && t.protocol == P.Apply(s.protocol, e) && s.guards <= t.guards && |t.guards| <= |s.guards| + 1
              && (t.protocol.sent == s.protocol.sent ==> t.guards == s.guards)
              && t == s.(protocol := t.protocol, guards := t.guards)
            else t == s
  {
  }

  /** Leaving releases the lock and drops the call; a tool that raised says nothing of an order. */
  lemma LeftExactly(s: Service, op: nat, requestHash: string, raised: bool)
    requires op in s.workers && s.lane == Some(op) && IsJobFor(s.workers[op].job, requestHash)
    ensures var t := ApplyLeave(s, op, raised);
            var row := J.GetSpec(s.protocol.db, requestHash);
            var order := if !raised && row.Ok? && row.value.Some? then row.value.value.brokerOrderId else None;
            Reported(s.(protocol := s.protocol.(calls := s.protocol.calls - {op}), lane := None), op, requestHash, order, t)
  {
  }

  /** A crash loses the operations, the workers, the account check, the lock, the calls and the claims, and no table. */
  lemma CrashLoses(s: Service, c: Settings)
    ensures var t := Apply(s, c, Crash);
            && t.assessments == s.assessments && t.byHash == s.byHash && t.reservations == s.reservations && t.finished == s.finished
            && t.guards == s.guards && t.protocol.db == s.protocol.db && t.protocol.sent == s.protocol.sent
            && t.protocol.orders == s.protocol.orders
            && t.tasks == map[] && t.workers == map[] && t.waiters == {} && t.lane == None && t.preflightAt == None
            && !t.busy && !t.closed && 0 !in t.protocol.owned
            && (forall k :: k in t.protocol.calls <==> k in s.protocol.calls && s.protocol.calls[k].process != 0)
  {
  }
}
