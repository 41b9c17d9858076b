/**
 * What holds in every run of the agent host, whoever disconnects, is cancelled or crashes: every broker call in
 * the journal's log was guarded, and the tools' lock admits one worker.
 */
module PaperAgentRuns {
  import opened Basics
  import opened AccountLimits
  import opened Reservations
  import R = TradeSafetyReceipts
  import J = SubmissionJournal
  import P = SubmissionProtocol
  import L = AgentLane
  import opened PaperAgentService

  // ----- durable facts -----

  ghost predicate Bound(assessments: map<string, Assessment>, a: Assessment) {
    a.proposal.intentId in assessments && assessments[a.proposal.intentId] == a
  }

  /** A recorded assessment is of the host's own request for its proposal, under the pinned policy. */
  ghost predicate AssessmentOk(c: Settings, a: Assessment) {
    && a.request == RequestFor(c, a.proposal, a.request.createdAt) && a.requestHash == c.hashOf(a.request)
    && a.receipt.request == a.request && a.receipt.policyHash == c.binding.policyHash
  }

  /** The hash index and the assessment table agree. */
  ghost predicate IndexOk(c: Settings, assessments: map<string, Assessment>, byHash: map<string, string>) {
    && (forall k :: k in assessments ==> AssessmentOk(c, assessments[k]) && assessments[k].proposal.intentId == k)
    && (forall k :: k in assessments ==> assessments[k].requestHash in byHash && byHash[assessments[k].requestHash] == k)
    && (forall h :: h in byHash ==> byHash[h] in assessments && assessments[byHash[h]].requestHash == h)
  }

  ghost predicate AtMostOnePending(reservations: seq<Reservation>, finished: set<string>) {
    forall i, j :: 0 <= i < j < |reservations| ==> reservations[i].requestHash in finished || reservations[j].requestHash in finished
  }

  /** The journal knows the broker's order for this request. */
  ghost predicate HasOrder(db: J.Db, requestHash: string) {
    requestHash in db.rows && db.rows[requestHash].brokerOrderId.Some?
  }

  ghost predicate FinishedOk(finished: set<string>, db: J.Db) {
    forall h :: h in finished ==> HasOrder(db, h)
  }

  ghost predicate GuardOk(assessments: map<string, Assessment>, reservations: seq<Reservation>, c: Settings, g: Guarded, x: P.Sent) {
    && Bound(assessments, g.a) && x == P.Sent(g.a.requestHash, g.a.receipt.receiptId) && Reserved(reservations, g.a.requestHash)
    && AccountGuard(c.limits, g.a.proposal, g.portfolio).None? && 0.0 <= g.checkedAt - g.guardedAt <= FRESHNESS
    && c.authorizes(g.a.request, g.a.receipt, g.verifiedAt)
  }

  ghost predicate GuardsOk(assessments: map<string, Assessment>, reservations: seq<Reservation>, c: Settings,
                           guards: seq<Guarded>, sent: seq<P.Sent>) {
    |guards| == |sent| && forall i :: 0 <= i < |sent| ==> GuardOk(assessments, reservations, c, guards[i], sent[i])
  }

  ghost predicate Durable(s: Service, c: Settings) {
    && IndexOk(c, s.assessments, s.byHash)
    && Sound(s.reservations, c.budget) && AtMostOnePending(s.reservations, s.finished)
    && FinishedOk(s.finished, s.protocol.db)
    && GuardsOk(s.assessments, s.reservations, c, s.guards, s.protocol.sent)
  }

  // ----- facts about what a crash loses -----

  /** One owned operation at a time, and the service is busy while there is one. */
  ghost predicate OneOperation(tasks: map<nat, Pc>, busy: bool) {
    (forall t, u :: t in tasks && u in tasks ==> t == u) && (tasks != map[] ==> busy)
  }

  /** Past the lock there is one worker, and only it has a call of the journal and the broker in flight. */
  ghost predicate LockOk(workers: map<nat, Worker>, lane: Option<nat>, calls: map<nat, P.Call>) {
    && (forall w :: w in workers ==> (workers[w].step.Starting? <==> lane != Some(w)))
    && (lane.Some? ==> lane.value in workers)
    && (forall k :: k in calls ==> lane == Some(k))
  }

  ghost predicate PcOk(s: Service, c: Settings, pc: Pc) {
    match pc
    case AwaitingEvidence(proposal, request) => request == RequestFor(c, proposal, request.createdAt)
    case AwaitingPortfolio(a) => Bound(s.assessments, a) && !AnyPending(s.reservations, s.finished)
    case Told(requestHash, _, brokerOrderId) => brokerOrderId.Some? ==> HasOrder(s.protocol.db, requestHash)
    case _ => true
  }

  ghost predicate TasksOk(s: Service, c: Settings) {
    forall t :: t in s.tasks ==> PcOk(s, c, s.tasks[t]) && (t in s.workers ==> s.tasks[t].AwaitingTool?)
  }

  /**
   * A submission still to be made was guarded and reserved, and no other account check can be in force while
   * its reservation is pending, not even after its own operation is gone.
   */
  ghost predicate JobOk(s: Service, c: Settings, job: Job) {
    match job
    case SubmitJob(a, portfolio, guardedAt) =>
      && Bound(s.assessments, a) && Reserved(s.reservations, a.requestHash) && AccountGuard(c.limits, a.proposal, portfolio).None?
      && (a.requestHash !in s.finished ==> s.preflightAt.None? || s.preflightAt == Some(guardedAt))
    case LookUpJob(requestHash, _) => requestHash in s.byHash
  }

  ghost predicate StepOk(c: Settings, w: Worker) {
    match w.step
    case Verified(at) => w.job.SubmitJob? && c.authorizes(w.job.a.request, w.job.a.receipt, at)
    case Checked(at, clock) =>
      && w.job.SubmitJob? && c.authorizes(w.job.a.request, w.job.a.receipt, at)
      && 0.0 <= clock - w.job.guardedAt <= FRESHNESS
    case _ => true
  }

  ghost predicate WorkersOk(s: Service, c: Settings) {
    forall w :: w in s.workers ==> JobOk(s, c, s.workers[w].job) && StepOk(c, s.workers[w])
  }

  ghost predicate IsFor(w: Worker, requestHash: string, receiptId: string) {
    w.job.SubmitJob? && w.job.a.requestHash == requestHash && w.job.a.receipt.receiptId == receiptId
  }

  ghost predicate CallOk(w: Worker, pc: P.Pc) {
    match pc
    case Authorized(requestHash, receiptId, _) => IsFor(w, requestHash, receiptId) && (w.step.Dispatched? || w.step.Verified?)
    case ClaimHeld(requestHash, receiptId) => IsFor(w, requestHash, receiptId) && (w.step.Verified? || w.step.Checked?)
    case Cleared(requestHash, receiptId) => IsFor(w, requestHash, receiptId) && w.step.Checked?
    case Answered(requestHash, receiptId, _) => IsFor(w, requestHash, receiptId) && w.step.Checked?
    case RecordRead(_, _) => w.job.LookUpJob?
    case OrderFound(_, _) => w.job.LookUpJob?
  }

  ghost predicate CallsOk(workers: map<nat, Worker>, calls: map<nat, P.Call>) {
    forall k :: k in calls ==> k in workers && calls[k].process == 0 && CallOk(workers[k], calls[k].pc)
  }

  ghost predicate Volatile(s: Service, c: Settings) {
    && OneOperation(s.tasks, s.busy) && LockOk(s.workers, s.lane, s.protocol.calls)
    && TasksOk(s, c) && WorkersOk(s, c) && CallsOk(s.workers, s.protocol.calls)
  }

  ghost predicate Inv(s: Service, c: Settings) {
    L.LaneInv(s.protocol) && Durable(s, c) && Volatile(s, c)
  }

  lemma FreshInv(c: Settings)
    requires c.budget.Valid()
    ensures Inv(Fresh(c), c)
  {
    P.InitialInv(c.capacity);
  }

  // ----- steps of the owned operation -----

  /** Moving an operation that has no worker only has to justify its new position. */
  lemma MovedKeeps(s: Service, c: Settings, op: nat, pc: Pc)
    requires Inv(s, c) && op in s.tasks && op !in s.workers && PcOk(s, c, pc)
    ensures Inv(Moved(s, op, pc), c)
  {
    DurableFrame(s, Moved(s, op, pc), c);
    MovedVolatile(s, c, op, pc);
  }

  lemma MovedVolatile(s: Service, c: Settings, op: nat, pc: Pc)
    requires Volatile(s, c) && op in s.tasks && op !in s.workers && PcOk(s, c, pc)
    ensures Volatile(Moved(s, op, pc), c)
  {
    var t := Moved(s, op, pc);
    assert forall u :: u in t.tasks ==> u == op;
    forall w | w in t.workers ensures JobOk(t, c, t.workers[w].job) {
      assert JobOk(s, c, s.workers[w].job);
    }
  }

  lemma StartedVolatile(s: Service, c: Settings, op: nat, job: Job, reconciling: bool)
    requires Volatile(s, c) && op in s.tasks && op !in s.workers && JobOk(s, c, job)
    ensures Volatile(Started(s, op, job, reconciling), c)
  {
    StartedWorkers(s, c, op, job, reconciling);
    StartedLock(s.workers, s.lane, s.protocol.calls, op, Worker(job, Starting));
    assert forall u :: u in Started(s, op, job, reconciling).tasks ==> u == op;
  }

  lemma StartedWorkers(s: Service, c: Settings, op: nat, job: Job, reconciling: bool)
    requires WorkersOk(s, c) && JobOk(s, c, job)
    ensures WorkersOk(Started(s, op, job, reconciling), c)
  {
    var t := Started(s, op, job, reconciling);
    forall w | w in t.workers ensures JobOk(t, c, t.workers[w].job) && StepOk(c, t.workers[w]) {
      assert w != op ==> JobOk(s, c, s.workers[w].job) && StepOk(c, s.workers[w]);
    }
  }

  lemma StartedLock(workers: map<nat, Worker>, lane: Option<nat>, calls: map<nat, P.Call>, op: nat, next: Worker)
    requires op !in workers && LockOk(workers, lane, calls) && CallsOk(workers, calls) && next.step.Starting?
    ensures LockOk(workers[op := next], lane, calls) && CallsOk(workers[op := next], calls)
  {
  }

  lemma StartedKeeps(s: Service, c: Settings, op: nat, job: Job, reconciling: bool)
    requires Inv(s, c) && op in s.tasks && op !in s.workers && JobOk(s, c, job)
    ensures Inv(Started(s, op, job, reconciling), c)
  {
    StartedVolatile(s, c, op, job, reconciling);
    DurableFrame(s, Started(s, op, job, reconciling), c);
  }

  lemma DurableFrame(s: Service, t: Service, c: Settings)
    requires Durable(s, c) && t.assessments == s.assessments && t.byHash == s.byHash && t.reservations == s.reservations
    requires t.finished == s.finished && t.protocol == s.protocol && t.guards == s.guards
    ensures Durable(t, c)
  {
  }

  /** The finally clause keeps everything, whether or not a worker goes on. */
  lemma EndedKeeps(s: Service, c: Settings, op: nat)
    requires Inv(s, c) && op in s.tasks
    ensures Inv(Ended(s, op), c) && Ended(s, op).tasks == map[]
  {
    var t := Ended(s, op);
    assert forall u :: u in s.tasks ==> u == op;
    forall w | w in t.workers ensures JobOk(t, c, t.workers[w].job) {
      assert JobOk(s, c, s.workers[w].job);
    }
  }

  lemma StrandedKeeps(s: Service, c: Settings, op: nat)
    requires Inv(s, c) && op in s.tasks
    ensures Inv(Stranded(s, op), c)
  {
    DurableFrame(s, Stranded(s, op), c);
    VolatileFrame(s, Stranded(s, op), c);
  }

  /** A worker that has no call in flight and does not hold the lock can go. */
  lemma WorkerGone(s: Service, c: Settings, op: nat)
    requires Inv(s, c) && s.lane != Some(op)
    ensures Inv(s.(workers := s.workers - {op}), c)
  {
    DurableFrame(s, s.(workers := s.workers - {op}), c);
    GoneVolatile(s, c, op);
  }

  lemma GoneVolatile(s: Service, c: Settings, op: nat)
    requires Volatile(s, c) && s.lane != Some(op)
    ensures Volatile(s.(workers := s.workers - {op}), c)
  {
    var t := s.(workers := s.workers - {op});
    forall w | w in t.workers ensures JobOk(t, c, t.workers[w].job) {
      assert JobOk(s, c, s.workers[w].job);
    }
    forall u | u in t.tasks ensures PcOk(t, c, t.tasks[u]) {
      assert PcOk(s, c, s.tasks[u]);
    }
  }

  lemma AnsweredKeeps(s: Service, c: Settings, op: nat, requestHash: string, brokerOrderId: Option<string>)
    requires Inv(s, c) && s.lane != Some(op) && (brokerOrderId.Some? ==> HasOrder(s.protocol.db, requestHash))
    ensures Inv(Answered(s, op, requestHash, brokerOrderId), c)
  {
    WorkerGone(s, c, op);
    var t := s.(workers := s.workers - {op});
    if op in s.tasks && s.tasks[op].AwaitingTool? {
      MovedKeeps(t, c, op, Told(requestHash, s.tasks[op].reconciling, brokerOrderId));
    }
  }

  lemma CancelKeeps(s: Service, c: Settings, op: nat, stopped: bool)
    requires Inv(s, c)
    ensures Inv(ApplyCancel(s, op, stopped), c)
  {
    if op in s.tasks && s.tasks[op].Queued? {
      StrandedKeeps(s, c, op);
    } else if op in s.tasks {
      EndedKeeps(s, c, op);
      if stopped && op in s.workers && s.workers[op].step.Starting? {
        WorkerGone(Ended(s, op), c, op);
      }
    }
  }

  lemma BeginAssessKeeps(s: Service, c: Settings, op: nat, now: Instant)
    requires Inv(s, c)
    ensures Inv(ApplyBeginAssess(s, c, op, now), c)
  {
    if op in s.tasks && s.tasks[op].Queued? && s.tasks[op].action.Assess? {
      var proposal := s.tasks[op].action.proposal;
      assert RequestFor(c, proposal, now).createdAt == now;
      MovedKeeps(s, c, op, Done);
      MovedKeeps(s, c, op, AwaitingEvidence(proposal, RequestFor(c, proposal, now)));
    }
  }

  function Adding(s: Service, a: Assessment): Service {
    s.(assessments := s.assessments[a.proposal.intentId := a], byHash := s.byHash[a.requestHash := a.proposal.intentId])
  }

  lemma AddedDurable(s: Service, c: Settings, a: Assessment)
    requires Durable(s, c) && AssessmentOk(c, a) && a.proposal.intentId !in s.assessments && a.requestHash !in s.byHash
    ensures Durable(Adding(s, a), c)
  {
    var t := Adding(s, a);
    forall i | 0 <= i < |t.guards| ensures GuardOk(t.assessments, t.reservations, c, t.guards[i], t.protocol.sent[i]) {
      assert GuardOk(s.assessments, s.reservations, c, s.guards[i], s.protocol.sent[i]);
    }
    assert IndexOk(c, t.assessments, t.byHash) by {
      AddedIndex(c, s.assessments, s.byHash, a);
    }
  }

  lemma AddedIndex(c: Settings, assessments: map<string, Assessment>, byHash: map<string, string>, a: Assessment)
    requires IndexOk(c, assessments, byHash) && AssessmentOk(c, a) && a.proposal.intentId !in assessments && a.requestHash !in byHash
    ensures IndexOk(c, assessments[a.proposal.intentId := a], byHash[a.requestHash := a.proposal.intentId])
  {
    var more := assessments[a.proposal.intentId := a];
    forall k | k in more ensures AssessmentOk(c, more[k]) {
      assert k in assessments ==> AssessmentOk(c, assessments[k]);
    }
  }

  lemma AddedVolatile(s: Service, c: Settings, a: Assessment)
    requires Volatile(s, c) && a.proposal.intentId !in s.assessments
    ensures Volatile(Adding(s, a), c)
  {
    var t := Adding(s, a);
    forall w | w in t.workers ensures JobOk(t, c, t.workers[w].job) {
      assert JobOk(s, c, s.workers[w].job);
    }
    forall u | u in t.tasks ensures PcOk(t, c, t.tasks[u]) {
      assert PcOk(s, c, s.tasks[u]);
    }
  }

  /** A new assessment leaves every fact about the old ones alone. */
  lemma AssessmentAdded(s: Service, c: Settings, a: Assessment)
    requires Inv(s, c) && AssessmentOk(c, a) && a.proposal.intentId !in s.assessments && a.requestHash !in s.byHash
    ensures Inv(Adding(s, a), c)
  {
    AddedDurable(s, c, a);
    AddedVolatile(s, c, a);
  }

  lemma FinishAssessCases(s: Service, c: Settings, op: nat, receipt: R.Receipt, now: Instant)
    requires op in s.tasks && s.tasks[op].AwaitingEvidence?
    requires s.tasks[op].request == RequestFor(c, s.tasks[op].proposal, s.tasks[op].request.createdAt)
    ensures var t := ApplyFinishAssess(s, c, op, receipt, now);
            var a := Assessment(s.tasks[op].proposal, s.tasks[op].request, c.hashOf(s.tasks[op].request), receipt);
            || t == Moved(s, op, Done)
            || (t == Adding(Moved(s, op, Done), a) && AssessmentOk(c, a)
                && a.proposal.intentId !in s.assessments && a.requestHash !in s.byHash)
  {
  }

  lemma FinishAssessKeeps(s: Service, c: Settings, op: nat, receipt: R.Receipt, now: Instant)
    requires Inv(s, c)
    ensures Inv(ApplyFinishAssess(s, c, op, receipt, now), c)
  {
    if op in s.tasks && s.tasks[op].AwaitingEvidence? {
      assert PcOk(s, c, s.tasks[op]);
      FinishAssessCases(s, c, op, receipt, now);
      MovedKeeps(s, c, op, Done);
      if ApplyFinishAssess(s, c, op, receipt, now) != Moved(s, op, Done) {
        AssessmentAdded(Moved(s, op, Done), c,
                        Assessment(s.tasks[op].proposal, s.tasks[op].request, c.hashOf(s.tasks[op].request), receipt));
      }
    }
  }

  lemma LookupIsBound(c: Settings, s: Service, requestHash: string)
    requires IndexOk(c, s.assessments, s.byHash) && Lookup(s, requestHash).Some?
    ensures requestHash in s.byHash && Bound(s.assessments, Lookup(s, requestHash).value)
    ensures Lookup(s, requestHash).value.requestHash == requestHash
  {
  }

  lemma BeginSubmitKeeps(s: Service, c: Settings, op: nat, enabled: bool, profileOk: bool, now: Instant)
    requires Inv(s, c)
    ensures Inv(ApplyBeginSubmit(s, c, op, enabled, profileOk, now), c)
  {
    if op in s.tasks && s.tasks[op].Queued? && s.tasks[op].action.Submit? {
      var requestHash := s.tasks[op].action.assessmentId;
      var t := ApplyBeginSubmit(s, c, op, enabled, profileOk, now);
      BeginSubmitCases(s, c, op, enabled, profileOk, now);
      if t == Moved(s, op, Done) {
        MovedKeeps(s, c, op, Done);
      } else {
        LookupIsBound(c, s, requestHash);
        if t == Started(s, op, LookUpJob(requestHash, false), false) {
          StartedKeeps(s, c, op, LookUpJob(requestHash, false), false);
        } else {
          MovedKeeps(s, c, op, AwaitingPortfolio(Lookup(s, requestHash).value));
        }
      }
    }
  }

  lemma BeginLookUpKeeps(s: Service, c: Settings, op: nat)
    requires Inv(s, c)
    ensures Inv(ApplyBeginLookUp(s, op), c)
  {
    if op in s.tasks && s.tasks[op].Queued? && s.tasks[op].action.LookUp? {
      var action := s.tasks[op].action;
      if Lookup(s, action.assessmentId).None? {
        MovedKeeps(s, c, op, Done);
      } else {
        StartedKeeps(s, c, op, LookUpJob(action.assessmentId, action.reconciling), action.reconciling);
      }
    }
  }

  /** With nothing pending, every worker's submission is over, and a new account check disturbs none. */
  lemma PreflightKeeps(s: Service, c: Settings, preflight: real)
    requires Inv(s, c) && !AnyPending(s.reservations, s.finished)
    ensures Inv(s.(preflightAt := Some(preflight)), c)
  {
    var t := s.(preflightAt := Some(preflight));
    forall w | w in t.workers ensures JobOk(t, c, t.workers[w].job) {
      assert JobOk(s, c, s.workers[w].job);
      if t.workers[w].job.SubmitJob? {
        assert t.workers[w].job.a.requestHash in s.finished;
      }
    }
    forall u | u in t.tasks ensures PcOk(t, c, t.tasks[u]) {
      assert PcOk(s, c, s.tasks[u]);
    }
  }

  lemma StillReserved(before: seq<Reservation>, grown: seq<Reservation>, requestHash: string)
    requires before <= grown && Reserved(before, requestHash)
    ensures Reserved(grown, requestHash)
  {
    var k :| 0 <= k < |before| && before[k].requestHash == requestHash;
    assert grown[k].requestHash == requestHash;
  }

  lemma OnePendingAfter(rows: seq<Reservation>, r: Reservation, finished: set<string>)
    requires !AnyPending(rows, finished)
    ensures AtMostOnePending(rows + [r], finished)
  {
    forall i, j | 0 <= i < j < |rows + [r]|
      ensures (rows + [r])[i].requestHash in finished || (rows + [r])[j].requestHash in finished
    {
      assert (rows + [r])[i] == rows[i];
    }
  }

  /** A reservation made while nothing is pending, for an operation about to be moved. */
  lemma ReservedKeeps(s: Service, c: Settings, op: nat, r: Reservation)
    requires Inv(s, c) && c.budget.Valid() && !AnyPending(s.reservations, s.finished)
    requires op in s.tasks && s.tasks[op] == Done
    requires ReserveSpec(s.reservations, r, c.budget).1
    ensures Inv(s.(reservations := s.reservations + [r]), c)
    ensures Reserved(s.reservations + [r], r.requestHash)
  {
    var t := s.(reservations := s.reservations + [r]);
    ReserveKeepsSound(s.reservations, r, c.budget);
    OnePendingAfter(s.reservations, r, s.finished);
    assert t.reservations[|s.reservations|] == r;
    assert forall u :: u in t.tasks ==> u == op;
    forall i | 0 <= i < |t.guards| ensures GuardOk(t.assessments, t.reservations, c, t.guards[i], t.protocol.sent[i]) {
      assert GuardOk(s.assessments, s.reservations, c, s.guards[i], s.protocol.sent[i]);
      StillReserved(s.reservations, t.reservations, s.guards[i].a.requestHash);
    }
    forall w | w in t.workers ensures JobOk(t, c, t.workers[w].job) {
      assert JobOk(s, c, s.workers[w].job);
      if t.workers[w].job.SubmitJob? {
        StillReserved(s.reservations, t.reservations, t.workers[w].job.a.requestHash);
      }
    }
  }

  lemma CheckAccountKeeps(s: Service, c: Settings, op: nat, portfolio: Portfolio, preflight: real, check: real,
                          enabled: bool, day: int)
    requires Inv(s, c) && c.budget.Valid()
    ensures Inv(ApplyCheckAccount(s, c, op, portfolio, preflight, check, enabled, day), c)
  {
    if op in s.tasks && s.tasks[op].AwaitingPortfolio? {
      var a, t := s.tasks[op].a, ApplyCheckAccount(s, c, op, portfolio, preflight, check, enabled, day);
      assert PcOk(s, c, s.tasks[op]);
      CheckAccountCases(s, c, op, portfolio, preflight, check, enabled, day);
      var noted := Moved(s, op, Done).(preflightAt := Some(preflight));
      MovedKeeps(s, c, op, Done);
      PreflightKeeps(Moved(s, op, Done), c, preflight);
      if t != Moved(s, op, Done) && t != noted {
        ReservedKeeps(noted, c, op, ReservationFor(a, day));
        StartedKeeps(noted.(reservations := s.reservations + [ReservationFor(a, day)]), c, op,
                     SubmitJob(a, portfolio, preflight), false);
      }
    }
  }

  lemma FinishedGrows(s: Service, c: Settings, requestHash: string)
    requires Inv(s, c) && HasOrder(s.protocol.db, requestHash)
    ensures Inv(s.(finished := s.finished + {requestHash}), c)
  {
    var t := s.(finished := s.finished + {requestHash});
    forall w | w in t.workers ensures JobOk(t, c, t.workers[w].job) {
      assert JobOk(s, c, s.workers[w].job);
    }
    forall u | u in t.tasks ensures PcOk(t, c, t.tasks[u]) {
      assert PcOk(s, c, s.tasks[u]);
    }
  }

  lemma ObserveKeeps(s: Service, c: Settings, op: nat, brokerOrderId: string, terminal: bool, accepted: bool)
    requires Inv(s, c)
    ensures Inv(ApplyObserve(s, op, brokerOrderId, terminal, accepted), c)
  {
    if op in s.tasks && s.tasks[op].Told? && s.tasks[op].brokerOrderId == Some(brokerOrderId) {
      assert PcOk(s, c, s.tasks[op]);
      FinishedGrows(s, c, s.tasks[op].requestHash);
      MovedKeeps(s, c, op, Done);
      MovedKeeps(s.(finished := s.finished + {s.tasks[op].requestHash}), c, op, Done);
    }
  }

  lemma IdleHasNoOperation(s: Service, c: Settings)
    requires Volatile(s, c) && !s.busy
    ensures s.tasks == map[]
  {
  }

  lemma AcceptedVolatile(s: Service, c: Settings, op: nat, action: Action)
    requires Volatile(s, c)
    ensures Volatile(ApplyRun(s, op, action), c)
  {
    if !s.busy {
      IdleHasNoOperation(s, c);
    }
    VolatileFrame(s, ApplyRun(s, op, action), c);
  }

  lemma RunKeepsInv(s: Service, c: Settings, op: nat, action: Action)
    requires Inv(s, c)
    ensures Inv(ApplyRun(s, op, action), c)
  {
    DurableFrame(s, ApplyRun(s, op, action), c);
    AcceptedVolatile(s, c, op, action);
  }

  lemma VolatileFrame(s: Service, t: Service, c: Settings)
    requires Volatile(s, c) && t.(busy := s.busy, closed := s.closed, waiters := s.waiters, tasks := s.tasks) == s
    requires OneOperation(t.tasks, t.busy)
    requires forall u :: u in t.tasks ==> (u in s.tasks && t.tasks[u] == s.tasks[u]) || (t.tasks[u].Queued? && u !in t.workers)
    ensures Volatile(t, c)
  {
    forall w | w in t.workers ensures JobOk(t, c, t.workers[w].job) {
      assert JobOk(s, c, s.workers[w].job);
    }
    forall u | u in t.tasks ensures PcOk(t, c, t.tasks[u]) {
      assert u in s.tasks ==> PcOk(s, c, s.tasks[u]);
    }
  }

  lemma CallersKeep(s: Service, c: Settings, op: nat)
    requires Inv(s, c)
    ensures Inv(s.(waiters := s.waiters - {op}), c) && Inv(s.(closed := true), c)
  {
    DurableFrame(s, s.(waiters := s.waiters - {op}), c);
    DurableFrame(s, s.(closed := true), c);
    VolatileFrame(s, s.(waiters := s.waiters - {op}), c);
    VolatileFrame(s, s.(closed := true), c);
  }

  // ----- steps of a worker -----

  lemma StepWorkers(s: Service, c: Settings, op: nat, step: Step, lane: Option<nat>)
    requires WorkersOk(s, c) && TasksOk(s, c) && op in s.workers && StepOk(c, s.workers[op].(step := step))
    ensures WorkersOk(Advanced(s.(lane := lane), op, step), c) && TasksOk(Advanced(s.(lane := lane), op, step), c)
  {
    var t := Advanced(s.(lane := lane), op, step);
    forall w | w in t.workers ensures JobOk(t, c, t.workers[w].job) && StepOk(c, t.workers[w]) {
      assert JobOk(s, c, s.workers[w].job) && StepOk(c, s.workers[w]);
    }
    forall u | u in t.tasks ensures PcOk(t, c, t.tasks[u]) {
      assert PcOk(s, c, s.tasks[u]);
    }
  }

  lemma StepCalls(workers: map<nat, Worker>, calls: map<nat, P.Call>, op: nat, next: Worker)
    requires CallsOk(workers, calls) && (op in calls ==> CallOk(next, calls[op].pc))
    ensures CallsOk(workers[op := next], calls)
  {
  }

  /** A worker that moves inside the lock, with what it does to the protocol accounted for separately. */
  lemma AdvancedKeeps(s: Service, c: Settings, op: nat, step: Step)
    requires Inv(s, c) && op in s.workers && !step.Starting? && !s.workers[op].step.Starting?
    requires StepOk(c, s.workers[op].(step := step))
    requires op in s.protocol.calls ==> CallOk(s.workers[op].(step := step), s.protocol.calls[op].pc)
    ensures Inv(Advanced(s, op, step), c)
  {
    DurableFrame(s, Advanced(s, op, step), c);
    StepWorkers(s, c, op, step, s.lane);
    StepCalls(s.workers, s.protocol.calls, op, s.workers[op].(step := step));
    StepLock(s.workers, s.lane, s.protocol.calls, op, s.workers[op].(step := step));
  }

  lemma StepLock(workers: map<nat, Worker>, lane: Option<nat>, calls: map<nat, P.Call>, op: nat, next: Worker)
    requires op in workers && LockOk(workers, lane, calls) && !next.step.Starting? && (lane == Some(op) || lane.None?)
    ensures LockOk(workers[op := next], Some(op), calls)
  {
  }

  lemma EnteredKeeps(s: Service, c: Settings, op: nat)
    requires Inv(s, c) && op in s.workers && s.workers[op].step.Starting? && s.lane.None?
    ensures Inv(Advanced(s.(lane := Some(op)), op, Locked), c)
  {
    DurableFrame(s, Advanced(s.(lane := Some(op)), op, Locked), c);
    StepWorkers(s, c, op, Locked, Some(op));
    StepCalls(s.workers, s.protocol.calls, op, s.workers[op].(step := Locked));
    StepLock(s.workers, s.lane, s.protocol.calls, op, s.workers[op].(step := Locked));
  }

  lemma EnterKeeps(s: Service, c: Settings, op: nat)
    requires Inv(s, c)
    ensures Inv(ApplyEnter(s, op), c)
  {
    if op in s.workers && s.workers[op].step.Starting? {
      if s.lane.Some? {
        AnsweredKeeps(s, c, op, HashOf(s.workers[op].job), None);
      } else {
        EnteredKeeps(s, c, op);
      }
    }
  }

  lemma AuthorizeKeeps(s: Service, c: Settings, op: nat, at: Instant)
    requires Inv(s, c)
    ensures Inv(ApplyAuthorize(s, c, op, at), c)
  {
    if op in s.workers && s.workers[op].step.Dispatched? && s.workers[op].job.SubmitJob? {
      var a := s.workers[op].job.a;
      if c.authorizes(a.request, a.receipt, at) {
        assert op in s.protocol.calls ==> CallOk(s.workers[op], s.protocol.calls[op].pc);
        AdvancedKeeps(s, c, op, Verified(at));
      }
    }
  }

  /** A lane step of the worker that holds the lock: rows only advance, and no other call is touched. */
  ghost predicate LaneMoves(s: Service, c: Settings, op: nat, p: P.System, guards: seq<Guarded>) {
    && L.LaneInv(p) && J.DbAdvances(s.protocol.db, p.db)
    && (forall k :: k in p.calls ==> k == op)
    && GuardsOk(s.assessments, s.reservations, c, guards, p.sent)
  }

  lemma OrdersStay(a: J.Db, b: J.Db, requestHash: string)
    requires J.DbAdvances(a, b) && HasOrder(a, requestHash)
    ensures HasOrder(b, requestHash)
  {
    assert J.RowAdvances(a.rows[requestHash], b.rows[requestHash]);
  }

  lemma ProtocolDurable(s: Service, c: Settings, op: nat, p: P.System, guards: seq<Guarded>)
    requires Durable(s, c) && LaneMoves(s, c, op, p, guards)
    ensures Durable(s.(protocol := p, guards := guards), c)
  {
    forall h | h in s.finished ensures HasOrder(p.db, h) {
      OrdersStay(s.protocol.db, p.db, h);
    }
  }

  lemma ProtocolVolatile(s: Service, c: Settings, op: nat, p: P.System, guards: seq<Guarded>)
    requires Volatile(s, c) && op in s.workers && s.lane == Some(op) && LaneMoves(s, c, op, p, guards)
    requires op in p.calls ==> p.calls[op].process == 0 && CallOk(s.workers[op], p.calls[op].pc)
    ensures Volatile(s.(protocol := p, guards := guards), c)
  {
    var t := s.(protocol := p, guards := guards);
    forall w | w in t.workers ensures JobOk(t, c, t.workers[w].job) {
      assert JobOk(s, c, s.workers[w].job);
    }
    forall u | u in t.tasks ensures PcOk(t, c, t.tasks[u]) {
      assert PcOk(s, c, s.tasks[u]);
      if s.tasks[u].Told? && s.tasks[u].brokerOrderId.Some? {
        OrdersStay(s.protocol.db, p.db, s.tasks[u].requestHash);
      }
    }
  }

  lemma ProtocolKeeps(s: Service, c: Settings, op: nat, p: P.System, guards: seq<Guarded>)
    requires Inv(s, c) && op in s.workers && s.lane == Some(op) && LaneMoves(s, c, op, p, guards)
    requires op in p.calls ==> p.calls[op].process == 0 && CallOk(s.workers[op], p.calls[op].pc)
    ensures Inv(s.(protocol := p, guards := guards), c)
  {
    ProtocolDurable(s, c, op, p, guards);
    ProtocolVolatile(s, c, op, p, guards);
  }
}
