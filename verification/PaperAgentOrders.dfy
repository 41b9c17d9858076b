/** The agent host wired to the receipt verifier and the order guard, and a run of it that sends an order. */
module PaperAgentOrders {
  import opened Basics
  import opened AccountLimits
  import opened Reservations
  import T = TradeSafety
  import R = TradeSafetyReceipts
  import O = OrderGuard
  import E = Examples
  import X = OrderGuardRuns
  import J = SubmissionJournal
  import P = SubmissionProtocol
  import L = AgentLane
  import opened PaperAgentService
  import opened PaperAgentRuns
  import G = PaperAgentGuarantees

  /** The host with one signing key: it verifies receipts with it, and the order guard is pinned to the same lane. */
  function Wired(limits: Limits, budget: Budget, capacity: nat, b: O.Binding, nameOf: string -> string,
                 h: R.Hashing, key: R.Key): Settings {
    Settings(limits, budget, capacity, b, nameOf, h.request,
             (r: R.Receipt, at: Instant) => R.Verify(h, r, at, Some(key)).Ok?,
             (q: T.Request, r: R.Receipt, at: Instant) => O.VerifyOrder(h, q, r, at, b, Some(key)).None?)
  }

  /** The order is the agent's proposal and nothing more. */
  predicate IsProposal(order: T.Order, proposal: Candidate) {
    && order.side == proposal.side && order.notional == proposal.notional && order.currency == "USD"
    && order.orderType == T.Market && order.symbol == "BTC/USD"
  }

  /**
   * Every order that a wired host sends in any run is the proposal its intent is bound to, under a receipt whose
   * policy passes it at the moment of the guard's check; the account limits and the reservation hold as well.
   */
  lemma EveryOrderPassesItsPolicy(limits: Limits, budget: Budget, capacity: nat, b: O.Binding, nameOf: string -> string,
                                  h: R.Hashing, key: R.Key, events: seq<Event>, i: nat)
    requires var c := Wired(limits, budget, capacity, b, nameOf, h, key);
             budget.Valid() && i < |RunEvents(c, events).protocol.sent|
    ensures var c := Wired(limits, budget, capacity, b, nameOf, h, key);
            var s := RunEvents(c, events);
            && |s.guards| == |s.protocol.sent|
            && var g := s.guards[i];
               && GuardOk(s.assessments, s.reservations, c, g, s.protocol.sent[i])
               && IsProposal(g.a.request.order, g.a.proposal) && g.a.request.mode == T.Paper
               && T.ValidEvidence(g.a.receipt.evidence) && T.ValidPreview(g.a.receipt.preview)
               && T.Decide(g.a.request, g.a.receipt.evidence, g.a.receipt.preview, g.a.receipt.policy, g.verifiedAt,
                           g.a.receipt.profile == R.HmacSha256).outcome == T.Pass
               && h.policy(g.a.receipt.policy) == b.policyHash
  {
    var c := Wired(limits, budget, capacity, b, nameOf, h, key);
    G.EverySubmissionIsGuarded(c, events, i);
    var s := RunEvents(c, events);
    GuardedPasses(limits, budget, capacity, b, nameOf, h, key, s.assessments, s.reservations, s.guards[i], s.protocol.sent[i]);
  }

  lemma GuardedPasses(limits: Limits, budget: Budget, capacity: nat, b: O.Binding, nameOf: string -> string, h: R.Hashing,
                      key: R.Key, assessments: map<string, Assessment>, reservations: seq<Reservation>, g: Guarded, x: P.Sent)
    requires var c := Wired(limits, budget, capacity, b, nameOf, h, key);
             GuardOk(assessments, reservations, c, g, x) && AssessmentOk(c, g.a)
    ensures IsProposal(g.a.request.order, g.a.proposal) && g.a.request.mode == T.Paper
    ensures T.ValidEvidence(g.a.receipt.evidence) && T.ValidPreview(g.a.receipt.preview)
    ensures T.Decide(g.a.request, g.a.receipt.evidence, g.a.receipt.preview, g.a.receipt.policy, g.verifiedAt,
                     g.a.receipt.profile == R.HmacSha256).outcome == T.Pass
    ensures h.policy(g.a.receipt.policy) == b.policyHash
  {
    O.AuthorizedPassesNow(h, g.a.request, g.a.receipt, g.verifiedAt, b, Some(key));
  }

  // ----- a run that sends an order -----

  /** A proposal with everything it takes to be sent at time zero. */
  predicate Sendable(c: Settings, p: Candidate, receipt: R.Receipt, q: Portfolio) {
    var request := RequestFor(c, p, 0);
    && c.budget.maxDaily > c.budget.reservedExits && c.capacity > 0
    && receipt.request == request && receipt.policyHash == c.binding.policyHash && receipt.decision.outcome == T.Pass
    && c.verifies(receipt, 0) && c.authorizes(request, receipt, 0) && receipt.expiresAt > 0
    && AccountGuard(c.limits, p, q).None?
    && IsDigest(c.hashOf(request)) && J.RequiredText(receipt.receiptId, 256)
  }

  function Assessed(c: Settings, p: Candidate, receipt: R.Receipt): Assessment {
    Assessment(p, RequestFor(c, p, 0), c.hashOf(RequestFor(c, p, 0)), receipt)
  }

  function AssessEvents(p: Candidate, receipt: R.Receipt): seq<Event> {
    [Event.Run(0, Assess(p)), BeginAssess(0, 0), FinishAssess(0, receipt, 0), Finish(0)]
  }

  /** The service right after its first assessment. */
  function AfterAssess(c: Settings, p: Candidate, receipt: R.Receipt): Service {
    var a := Assessed(c, p, receipt);
    Fresh(c).(assessments := map[p.intentId := a], byHash := map[a.requestHash := p.intentId])
  }

  lemma RunOneMore(s: Service, c: Settings, events: seq<Event>, e: Event)
    ensures RunFrom(s, c, events + [e]) == Apply(RunFrom(s, c, events), c, e)
  {
    assert (events + [e])[..|events|] == events;
  }

  /** The next event of a run. */
  lemma RunsOn(s: Service, c: Settings, events: seq<Event>, k: nat)
    requires k < |events|
    ensures RunFrom(s, c, events[..k + 1]) == Apply(RunFrom(s, c, events[..k]), c, events[k])
  {
    assert events[..k + 1][..k] == events[..k];
  }

  function Assessing(c: Settings, pc: Pc): Service {
    Fresh(c).(busy := true, waiters := {0}, tasks := map[0 := pc])
  }

  lemma AssessBegins(c: Settings, p: Candidate, receipt: R.Receipt)
    ensures RunEvents(c, AssessEvents(p, receipt)[..2]) == Assessing(c, AwaitingEvidence(p, RequestFor(c, p, 0)))
  {
    var events := AssessEvents(p, receipt);
    RunsOn(Fresh(c), c, events, 0);
    assert RunEvents(c, events[..1]) == Assessing(c, Queued(Assess(p)));
    RunsOn(Fresh(c), c, events, 1);
  }

  function Noted(c: Settings, p: Candidate, receipt: R.Receipt): Service {
    AfterAssess(c, p, receipt).(busy := true, waiters := {0}, tasks := map[0 := Done])
  }

  lemma RecordStep(c: Settings, p: Candidate, receipt: R.Receipt, q: Portfolio)
    requires Sendable(c, p, receipt, q)
    ensures Apply(Assessing(c, AwaitingEvidence(p, RequestFor(c, p, 0))), c, FinishAssess(0, receipt, 0)) == Noted(c, p, receipt)
    ensures Apply(Noted(c, p, receipt), c, Finish(0)) == AfterAssess(c, p, receipt)
  {
  }

  lemma AssessRuns(c: Settings, p: Candidate, receipt: R.Receipt, q: Portfolio)
    requires Sendable(c, p, receipt, q)
    ensures RunEvents(c, AssessEvents(p, receipt)) == AfterAssess(c, p, receipt)
  {
    var events := AssessEvents(p, receipt);
    AssessBegins(c, p, receipt);
    RecordStep(c, p, receipt, q);
    RunsOn(Fresh(c), c, events, 2);
    RunsOn(Fresh(c), c, events, 3);
    assert events[..4] == events;
  }

  function CheckEvents(c: Settings, p: Candidate, q: Portfolio): seq<Event> {
    [Event.Run(1, Action.Submit(c.hashOf(RequestFor(c, p, 0)))), BeginSubmit(1, true, true, 0),
     CheckAccount(1, q, 0.0, 0.0, true, 0), Enter(1)]
  }

  function Owned(c: Settings, p: Candidate, receipt: R.Receipt, pc: Pc): Service {
    AfterAssess(c, p, receipt).(busy := true, waiters := {1}, tasks := map[1 := pc])
  }

  /** The service while its one worker is inside the lock, at some step and with some state of the protocol. */
  function Working(c: Settings, p: Candidate, receipt: R.Receipt, q: Portfolio, step: Step, protocol: P.System): Service {
    var a := Assessed(c, p, receipt);
    Owned(c, p, receipt, AwaitingTool(a.requestHash, false))
    .(reservations := [ReservationFor(a, 0)], preflightAt := Some(0.0),
      workers := map[1 := Worker(SubmitJob(a, q, 0.0), step)], lane := if step.Starting? then None else Some(1),
      protocol := protocol)
  }

  lemma BeginSubmitStep(c: Settings, p: Candidate, receipt: R.Receipt, q: Portfolio)
    requires Sendable(c, p, receipt, q)
    ensures var a := Assessed(c, p, receipt);
            Apply(Owned(c, p, receipt, Queued(Action.Submit(a.requestHash))), c, BeginSubmit(1, true, true, 0))
            == Owned(c, p, receipt, AwaitingPortfolio(a))
  {
    var a := Assessed(c, p, receipt);
    var s := Owned(c, p, receipt, Queued(Action.Submit(a.requestHash)));
    assert Lookup(s, a.requestHash) == Some(a);
    assert J.GetSpec(s.protocol.db, a.requestHash) == Ok(None);
  }

  lemma OwnedStep(c: Settings, p: Candidate, receipt: R.Receipt, action: Action)
    ensures Apply(AfterAssess(c, p, receipt), c, Event.Run(1, action)) == Owned(c, p, receipt, Queued(action))
  {
  }

  lemma FirstReservation(r: Reservation, budget: Budget)
    requires budget.maxDaily > budget.reservedExits
    ensures ReserveSpec([], r, budget) == ([r], true)
  {
    assert OnDay([], r.day) == 0 && EntriesOnDay([], r.day) == 0;
    assert [] + [r] == [r];
  }

  lemma CheckStep(c: Settings, p: Candidate, receipt: R.Receipt, q: Portfolio)
    requires Sendable(c, p, receipt, q)
    ensures Apply(Owned(c, p, receipt, AwaitingPortfolio(Assessed(c, p, receipt))), c, CheckAccount(1, q, 0.0, 0.0, true, 0))
            == Working(c, p, receipt, q, Starting, P.Initial(c.capacity))
  {
    FirstReservation(ReservationFor(Assessed(c, p, receipt), 0), c.budget);
  }

  lemma EnterStep(c: Settings, p: Candidate, receipt: R.Receipt, q: Portfolio)
    ensures Apply(Working(c, p, receipt, q, Starting, P.Initial(c.capacity)), c, Enter(1))
            == Working(c, p, receipt, q, Locked, P.Initial(c.capacity))
  {
  }

  lemma CheckBegins(c: Settings, p: Candidate, receipt: R.Receipt, q: Portfolio)
    requires Sendable(c, p, receipt, q)
    ensures RunFrom(AfterAssess(c, p, receipt), c, CheckEvents(c, p, q)[..2])
            == Owned(c, p, receipt, AwaitingPortfolio(Assessed(c, p, receipt)))
  {
    var idle, events := AfterAssess(c, p, receipt), CheckEvents(c, p, q);
    OwnedStep(c, p, receipt, Action.Submit(c.hashOf(RequestFor(c, p, 0))));
    RunsOn(idle, c, events, 0);
    BeginSubmitStep(c, p, receipt, q);
    RunsOn(idle, c, events, 1);
  }

  /** The worker gets its lock: from here on its operation may be cancelled without it. */
  lemma CheckRuns(c: Settings, p: Candidate, receipt: R.Receipt, q: Portfolio)
    requires Sendable(c, p, receipt, q)
    ensures RunFrom(AfterAssess(c, p, receipt), c, CheckEvents(c, p, q)) == Working(c, p, receipt, q, Locked, P.Initial(c.capacity))
  {
    var idle, events := AfterAssess(c, p, receipt), CheckEvents(c, p, q);
    CheckBegins(c, p, receipt, q);
    CheckStep(c, p, receipt, q);
    RunsOn(idle, c, events, 2);
    EnterStep(c, p, receipt, q);
    RunsOn(idle, c, events, 3);
    assert events[..4] == events;
  }

  // ----- inside the lock -----

  const GUARD_EVENTS: seq<Event> := [Dispatch(1, 0.0, true), Authorize(1, 0), Continue(1, P.Consume(1, 0, "", J.NoFault)),
                                     BeginSending(1, 0.0, true, 0, J.NoFault)]

  /** The protocol with its one call at some position, before and after the claim. */
  function With(c: Settings, db: J.Db, owned: map<nat, map<string, string>>, pc: P.Pc): P.System {
    P.Initial(c.capacity).(db := db, owned := owned, calls := map[1 := P.Call(0, pc)])
  }

  function ClaimedDb(a: Assessment): J.Db {
    J.Db(map[a.requestHash := J.ClaimedRow(a.receipt.receiptId, a.requestHash, a.receipt.expiresAt, "", 0)], Some(0))
  }

  function BegunDb(a: Assessment): J.Db {
    J.Db(map[a.requestHash := J.BegunRow(J.ClaimedRow(a.receipt.receiptId, a.requestHash, a.receipt.expiresAt, "", 0), 0)], Some(0))
  }

  lemma SubmitStep(c: Settings, a: Assessment)
    requires IsDigest(a.requestHash)
    ensures L.LaneApply(P.Initial(c.capacity), L.SubmitTool(1, a.requestHash, a.receipt.receiptId, a.receipt.expiresAt, true))
            == With(c, J.Db(map[], None), map[], P.Authorized(a.requestHash, a.receipt.receiptId, a.receipt.expiresAt))
  {
    assert L.Dispatch(J.Db(map[], None), a.requestHash, true) == L.Proceed;
  }

  lemma ConsumeStep(c: Settings, a: Assessment)
    requires IsDigest(a.requestHash) && J.RequiredText(a.receipt.receiptId, 256) && a.receipt.expiresAt > 0 && c.capacity > 0
    ensures P.Apply(With(c, J.Db(map[], None), map[], P.Authorized(a.requestHash, a.receipt.receiptId, a.receipt.expiresAt)),
                    P.Consume(1, 0, "", J.NoFault))
            == With(c, ClaimedDb(a), map[0 := map[a.requestHash := ""]], P.ClaimHeld(a.requestHash, a.receipt.receiptId))
  {
    var h := J.Handle(J.Db(map[], None), map[]);
    var d := J.ConsumeSpec(h, a.receipt.receiptId, a.requestHash, a.receipt.expiresAt, 0, "", c.capacity, J.NoFault);
    assert d == J.Done(J.Handle(ClaimedDb(a), map[a.requestHash := ""]), Ok(true));
  }

  lemma BeginStep(c: Settings, a: Assessment)
    requires IsDigest(a.requestHash) && J.RequiredText(a.receipt.receiptId, 256)
    ensures P.Apply(With(c, ClaimedDb(a), map[0 := map[a.requestHash := ""]], P.ClaimHeld(a.requestHash, a.receipt.receiptId)),
                    P.Begin(1, true, 0, J.NoFault))
            == With(c, BegunDb(a), map[0 := map[a.requestHash := ""]], P.Cleared(a.requestHash, a.receipt.receiptId))
  {
    var h := J.Handle(ClaimedDb(a), map[a.requestHash := ""]);
    var d := J.BeginSpec(h, a.receipt.receiptId, a.requestHash, J.ClientOrderId(a.requestHash), 0, J.NoFault);
    assert d.handle == J.Handle(BegunDb(a), map[a.requestHash := ""]) && d.out.Ok?;
  }

  lemma SendStep(c: Settings, a: Assessment)
    ensures P.Apply(With(c, BegunDb(a), map[0 := map[a.requestHash := ""]], P.Cleared(a.requestHash, a.receipt.receiptId)),
                    P.Send(1, None, None)).sent
            == [P.Sent(a.requestHash, a.receipt.receiptId)]
  {
  }

  function Claiming(c: Settings, a: Assessment): P.System {
    With(c, J.Db(map[], None), map[], P.Authorized(a.requestHash, a.receipt.receiptId, a.receipt.expiresAt))
  }

  function Held(c: Settings, a: Assessment): P.System {
    With(c, ClaimedDb(a), map[0 := map[a.requestHash := ""]], P.ClaimHeld(a.requestHash, a.receipt.receiptId))
  }

  function Begun(c: Settings, a: Assessment): P.System {
    With(c, BegunDb(a), map[0 := map[a.requestHash := ""]], P.Cleared(a.requestHash, a.receipt.receiptId))
  }

  lemma DispatchStep(c: Settings, p: Candidate, receipt: R.Receipt, q: Portfolio)
    requires Sendable(c, p, receipt, q)
    ensures Apply(Working(c, p, receipt, q, Locked, P.Initial(c.capacity)), c, Dispatch(1, 0.0, true))
            == Working(c, p, receipt, q, Dispatched, Claiming(c, Assessed(c, p, receipt)))
  {
    SubmitStep(c, Assessed(c, p, receipt));
  }

  lemma AuthorizeStep(c: Settings, p: Candidate, receipt: R.Receipt, q: Portfolio)
    requires Sendable(c, p, receipt, q)
    ensures Apply(Working(c, p, receipt, q, Dispatched, Claiming(c, Assessed(c, p, receipt))), c, Authorize(1, 0))
            == Working(c, p, receipt, q, Verified(0), Claiming(c, Assessed(c, p, receipt)))
  {
  }

  /** Whatever a worker does to the protocol without sending, it does to nothing else. */
  lemma ContinuesQuietly(s: Service, c: Settings, op: nat, e: P.Event, next: P.System)
    requires op in s.workers && s.lane == Some(op) && WorkerMay(s.workers[op], op, e)
    requires P.Apply(s.protocol, e) == next && next.sent == s.protocol.sent
    ensures Apply(s, c, Continue(op, e)) == s.(protocol := next)
  {
  }

  lemma ClaimStep(c: Settings, p: Candidate, receipt: R.Receipt, q: Portfolio)
    requires Sendable(c, p, receipt, q)
    ensures Apply(Working(c, p, receipt, q, Verified(0), Claiming(c, Assessed(c, p, receipt))), c,
                  Continue(1, P.Consume(1, 0, "", J.NoFault)))
            == Working(c, p, receipt, q, Verified(0), Held(c, Assessed(c, p, receipt)))
  {
    var a := Assessed(c, p, receipt);
    ConsumeStep(c, a);
    ContinuesQuietly(Working(c, p, receipt, q, Verified(0), Claiming(c, a)), c, 1, P.Consume(1, 0, "", J.NoFault), Held(c, a));
  }

  lemma ClearProtocol(c: Settings, p: Candidate, receipt: R.Receipt, q: Portfolio)
    requires Sendable(c, p, receipt, q)
    ensures SendingStep(Working(c, p, receipt, q, Verified(0), Held(c, Assessed(c, p, receipt))), 1, 0.0, true, 0, J.NoFault)
            == Begun(c, Assessed(c, p, receipt))
  {
    BeginStep(c, Assessed(c, p, receipt));
  }

  lemma ClearAdvances(s: Service, c: Settings, op: nat, protocol: P.System)
    requires op in s.workers && s.workers[op].step.Verified? && IsCleared(protocol, op)
    requires SendingStep(s, op, 0.0, true, 0, J.NoFault) == protocol
    ensures Apply(s, c, BeginSending(op, 0.0, true, 0, J.NoFault))
            == Advanced(s.(protocol := protocol), op, Checked(s.workers[op].step.at, 0.0))
  {
  }

  lemma WorkingAdvances(c: Settings, p: Candidate, receipt: R.Receipt, q: Portfolio, protocol: P.System, next: P.System)
    ensures Advanced(Working(c, p, receipt, q, Verified(0), protocol).(protocol := next), 1, Checked(0, 0.0))
            == Working(c, p, receipt, q, Checked(0, 0.0), next)
  {
  }

  lemma ClearStep(c: Settings, p: Candidate, receipt: R.Receipt, q: Portfolio)
    requires Sendable(c, p, receipt, q)
    ensures Apply(Working(c, p, receipt, q, Verified(0), Held(c, Assessed(c, p, receipt))), c, BeginSending(1, 0.0, true, 0, J.NoFault))
            == Working(c, p, receipt, q, Checked(0, 0.0), Begun(c, Assessed(c, p, receipt)))
  {
    var a := Assessed(c, p, receipt);
    ClearProtocol(c, p, receipt, q);
    ClearAdvances(Working(c, p, receipt, q, Verified(0), Held(c, a)), c, 1, Begun(c, a));
    WorkingAdvances(c, p, receipt, q, Held(c, a), Begun(c, a));
  }

  lemma GuardBegins(c: Settings, p: Candidate, receipt: R.Receipt, q: Portfolio)
    requires Sendable(c, p, receipt, q)
    ensures RunFrom(Working(c, p, receipt, q, Locked, P.Initial(c.capacity)), c, GUARD_EVENTS[..2])
            == Working(c, p, receipt, q, Verified(0), Claiming(c, Assessed(c, p, receipt)))
  {
    var locked := Working(c, p, receipt, q, Locked, P.Initial(c.capacity));
    DispatchStep(c, p, receipt, q);
    RunsOn(locked, c, GUARD_EVENTS, 0);
    AuthorizeStep(c, p, receipt, q);
    RunsOn(locked, c, GUARD_EVENTS, 1);
  }

  lemma GuardClaims(c: Settings, p: Candidate, receipt: R.Receipt, q: Portfolio)
    requires Sendable(c, p, receipt, q)
    ensures RunFrom(Working(c, p, receipt, q, Locked, P.Initial(c.capacity)), c, GUARD_EVENTS[..3])
            == Working(c, p, receipt, q, Verified(0), Held(c, Assessed(c, p, receipt)))
  {
    GuardBegins(c, p, receipt, q);
    ClaimStep(c, p, receipt, q);
    RunsOn(Working(c, p, receipt, q, Locked, P.Initial(c.capacity)), c, GUARD_EVENTS, 2);
  }

  lemma GuardRuns(c: Settings, p: Candidate, receipt: R.Receipt, q: Portfolio)
    requires Sendable(c, p, receipt, q)
    ensures RunFrom(Working(c, p, receipt, q, Locked, P.Initial(c.capacity)), c, GUARD_EVENTS)
            == Working(c, p, receipt, q, Checked(0, 0.0), Begun(c, Assessed(c, p, receipt)))
  {
    GuardClaims(c, p, receipt, q);
    ClearStep(c, p, receipt, q);
    RunsOn(Working(c, p, receipt, q, Locked, P.Initial(c.capacity)), c, GUARD_EVENTS, 3);
    assert GUARD_EVENTS[..4] == GUARD_EVENTS;
  }

  lemma ContinueIsProtocol(s: Service, op: nat, e: P.Event)
    requires op in s.workers && s.lane == Some(op) && WorkerMay(s.workers[op], op, e)
    ensures ApplyContinue(s, op, e).protocol == P.Apply(s.protocol, e)
  {
  }

  lemma OrderStep(c: Settings, p: Candidate, receipt: R.Receipt, q: Portfolio)
    ensures ApplyContinue(Working(c, p, receipt, q, Checked(0, 0.0), Begun(c, Assessed(c, p, receipt))), 1,
                          P.Send(1, None, None)).protocol.sent
            == [P.Sent(c.hashOf(RequestFor(c, p, 0)), receipt.receiptId)]
  {
    ContinueIsProtocol(Working(c, p, receipt, q, Checked(0, 0.0), Begun(c, Assessed(c, p, receipt))), 1, P.Send(1, None, None));
    SendStep(c, Assessed(c, p, receipt));
  }

  lemma {:induction false} RunAppend(s: Service, c: Settings, xs: seq<Event>, ys: seq<Event>)
    ensures RunFrom(s, c, xs + ys) == RunFrom(RunFrom(s, c, xs), c, ys)
    decreases |ys|
  {
    if ys == [] {
      assert xs + ys == xs;
    } else {
      var n := |ys| - 1;
      assert (xs + ys)[..|xs + ys| - 1] == xs + ys[..n];
      RunAppend(s, c, xs, ys[..n]);
    }
  }

  /** Up to the lock, with a worker whose operation could now be cancelled without it. */
  function UpToTheLock(c: Settings, p: Candidate, receipt: R.Receipt, q: Portfolio): seq<Event> {
    AssessEvents(p, receipt) + CheckEvents(c, p, q)
  }

  lemma LockIsReached(c: Settings, p: Candidate, receipt: R.Receipt, q: Portfolio)
    requires Sendable(c, p, receipt, q)
    ensures RunEvents(c, UpToTheLock(c, p, receipt, q)) == Working(c, p, receipt, q, Locked, P.Initial(c.capacity))
  {
    AssessRuns(c, p, receipt, q);
    RunAppend(Fresh(c), c, AssessEvents(p, receipt), CheckEvents(c, p, q));
    CheckRuns(c, p, receipt, q);
  }

  /** The run that sends an order. */
  function SendingRun(c: Settings, p: Candidate, receipt: R.Receipt, q: Portfolio): seq<Event> {
    UpToTheLock(c, p, receipt, q) + GUARD_EVENTS + [Continue(1, P.Send(1, None, None))]
  }

  lemma GuardIsPassed(c: Settings, p: Candidate, receipt: R.Receipt, q: Portfolio)
    requires Sendable(c, p, receipt, q)
    ensures RunEvents(c, UpToTheLock(c, p, receipt, q) + GUARD_EVENTS)
            == Working(c, p, receipt, q, Checked(0, 0.0), Begun(c, Assessed(c, p, receipt)))
  {
    LockIsReached(c, p, receipt, q);
    RunAppend(Fresh(c), c, UpToTheLock(c, p, receipt, q), GUARD_EVENTS);
    GuardRuns(c, p, receipt, q);
  }

  /** An order that can be sent is sent, by this run. */
  lemma SendableIsSent(c: Settings, p: Candidate, receipt: R.Receipt, q: Portfolio)
    requires Sendable(c, p, receipt, q)
    ensures RunEvents(c, SendingRun(c, p, receipt, q)).protocol.sent == [P.Sent(c.hashOf(RequestFor(c, p, 0)), receipt.receiptId)]
  {
    GuardIsPassed(c, p, receipt, q);
    RunOneMore(Fresh(c), c, UpToTheLock(c, p, receipt, q) + GUARD_EVENTS, Continue(1, P.Send(1, None, None)));
    OrderStep(c, p, receipt, q);
  }

  // ----- a host of its own -----

  lemma {:induction false} AsciiLength(s: string)
    requires forall i :: 0 <= i < |s| ==> s[i] as int < 0x80
    ensures Utf8Length(s) == |s|
    decreases |s|
  {
    if s != "" {
      AsciiLength(s[1..]);
    }
  }

  lemma ReceiptIdIsText(digest: string)
    requires IsDigest(digest)
    ensures J.RequiredText(R.IdOf(digest), 256)
  {
    var id := R.IdOf(digest);
    assert |R.ID_PREFIX| == 13;
    forall i | 13 <= i < |id| ensures IsLowerHex(id[i]) {
      assert id[i] == digest[i - 13];
    }
    assert forall i :: 0 <= i < 13 ==> id[i] == R.ID_PREFIX[i] && 0x5f <= id[i] as int < 0x80;
    AsciiLength(id);
  }

  const LIMITS := Limits(0.25, 1000.0, 10.0, 0.05, 1000.0)

  const PORTFOLIO := Portfolio(5000.0, 10000.0, 5000.0, 0.0, 0)

  const PROPOSAL := Candidate("intent", T.Sell, 1000.0)

  function NameOf(intentId: string): string {
    intentId
  }

  function Host(h: R.Hashing): Settings {
    Wired(LIMITS, Budget(4, 1), 10, X.Lane(h), NameOf, h, X.KEY)
  }

  lemma AccountAllows()
    ensures AccountGuard(LIMITS, PROPOSAL, PORTFOLIO).None?
  {
    assert 5000.0 / 10000.0 == 0.5 && 0.0 / 10000.0 == 0.0;
  }

  lemma HostAsks(h: R.Hashing)
    ensures RequestFor(Host(h), PROPOSAL, 0) == E.Asked(0)
  {
  }

  lemma HostAccepts(h: R.Hashing, x: R.Inputs, receipt: R.Receipt)
    requires R.Digests(h) && X.IssuedPass(h, X.Lane(h), Some(X.KEY), x, receipt) && receipt.evaluatedAt == 0 < receipt.expiresAt
    ensures Host(h).verifies(receipt, 0) && Host(h).authorizes(receipt.request, receipt, 0)
  {
    R.IssuedReceiptVerifies(h, x, receipt, 0);
    X.IssuedPassIsAuthorized(h, X.Lane(h), Some(X.KEY), x, receipt, 0);
  }

  lemma IssuedIsBound(h: R.Hashing, x: R.Inputs, receipt: R.Receipt)
    requires R.Digests(h) && X.IssuedPass(h, X.Lane(h), Some(X.KEY), x, receipt) && x == X.PassInputs(h, 0)
    ensures receipt.request == E.Asked(0) && receipt.policyHash == Host(h).binding.policyHash && receipt.decision.outcome == T.Pass
    ensures J.RequiredText(receipt.receiptId, 256)
  {
    ReceiptIdIsText(R.Digest(h, receipt));
  }

  /** Whatever the digests, there is a receipt with which the proposal can be sent. */
  lemma AProposalIsSendable(h: R.Hashing) returns (receipt: R.Receipt)
    requires R.Digests(h) && forall q :: IsDigest(h.request(q))
    ensures Sendable(Host(h), PROPOSAL, receipt, PORTFOLIO)
  {
    var x;
    x, receipt := X.OrderIsPass(h, 0);
    HostAccepts(h, x, receipt);
    IssuedIsBound(h, x, receipt);
    HostAsks(h);
    AccountAllows();
  }

  /** A wired host can send an order, whatever the digests. */
  lemma AnOrderIsSent(h: R.Hashing)
    requires R.Digests(h) && forall q :: IsDigest(h.request(q))
    ensures exists events :: |RunEvents(Host(h), events).protocol.sent| == 1
  {
    var receipt := AProposalIsSendable(h);
    SendableIsSent(Host(h), PROPOSAL, receipt, PORTFOLIO);
    assert |RunEvents(Host(h), SendingRun(Host(h), PROPOSAL, receipt, PORTFOLIO)).protocol.sent| == 1;
  }

  /** Cancelling the operation of that order while its worker holds the lock lets another worker start beside it. */
  lemma WorkersCanOverlap(h: R.Hashing)
    requires R.Digests(h) && forall q :: IsDigest(h.request(q))
    ensures exists events :: G.CanOverlap(ApplyCancel(RunEvents(Host(h), events), 1, false), Host(h))
  {
    var receipt := AProposalIsSendable(h);
    var c := Host(h);
    var events := UpToTheLock(c, PROPOSAL, receipt, PORTFOLIO);
    LockIsReached(c, PROPOSAL, receipt, PORTFOLIO);
    G.CancellationDecides(c, events, 1, false);
  }
}
