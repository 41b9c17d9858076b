/** The paper-order gateway: a fresh verified receipt for the exact request, claimed once, before the broker is called. */
module OrderGuard {
  import opened Basics
  import opened TradeSafety
  import R = TradeSafetyReceipts
  import opened ReplayGuard

  /** The identity and policy pinned to one broker credential lane. */
  datatype Binding = Binding(accountId: string, tenantId: string, operatorId: string, agentId: string, runtime: string,
                             strategyId: Option<string>, policyId: string, policyVersion: string, policyHash: string,
                             issuer: R.Issuer, keyId: Option<string>)

  datatype Block =
    | RequestInvalid | ModeNotSupported | ReceiptInvalid(error: R.Error) | RequestMismatch | ContextMismatch
    | PolicyIdentityMismatch | PolicyHashMismatch | IssuerMismatch | KeyMismatch | NotEnforced
    | DecisionBlocked(outcome: Outcome) | ConsumerUnavailable | ReceiptReplay | GatewayClockUnavailable

  function BindingMismatch(r: Request, receipt: R.Receipt, b: Binding): Option<Block> {
    var a := r.agent;
    if a.accountId != b.accountId || a.tenantId != b.tenantId || a.operatorId != b.operatorId || a.agentId != b.agentId
       || a.runtime != b.runtime || a.strategyId != b.strategyId then Some(ContextMismatch)
    else if r.policyId != b.policyId || r.policyVersion != b.policyVersion then Some(PolicyIdentityMismatch)
    else if receipt.policyHash != b.policyHash then Some(PolicyHashMismatch)
    else if receipt.issuer != b.issuer then Some(IssuerMismatch)
    else if receipt.keyId != b.keyId then Some(KeyMismatch)
    else None
  }

  /** Why an order is stopped before its receipt is claimed, if it is. */
  function VerifyOrder(h: R.Hashing, proposed: Request, receipt: R.Receipt, at: Instant, b: Binding, key: Option<R.Key>): Option<Block> {
    if !ValidRequest(proposed) then Some(RequestInvalid)
    else if proposed.mode != Paper then Some(ModeNotSupported)
    else
      var verified := R.Verify(h, receipt, at, key);
      if verified.Err? then Some(ReceiptInvalid(verified.error))
      else if h.request(proposed) != receipt.requestHash || proposed != receipt.request then Some(RequestMismatch)
      else if BindingMismatch(proposed, receipt, b).Some? then BindingMismatch(proposed, receipt, b)
      else if !receipt.decision.enforced then Some(NotEnforced)
      else if receipt.decision.outcome != Pass then Some(DecisionBlocked(receipt.decision.outcome))
      else None
  }

  /** The request and its receipt belong to one lane: its account, people, agent, policy, issuer and key. */
  predicate InLane(r: Request, receipt: R.Receipt, b: Binding) {
    && r.agent.accountId == b.accountId && r.agent.tenantId == b.tenantId && r.agent.operatorId == b.operatorId
    && r.agent.agentId == b.agentId && r.agent.runtime == b.runtime && r.agent.strategyId == b.strategyId
    && r.policyId == b.policyId && r.policyVersion == b.policyVersion && receipt.policyHash == b.policyHash
    && receipt.issuer == b.issuer && receipt.keyId == b.keyId
  }

  /** Which part of the lane does not match. */
  lemma MismatchExactlyWhen(r: Request, receipt: R.Receipt, b: Binding)
    ensures var out := BindingMismatch(r, receipt, b);
            var context := && r.agent.accountId == b.accountId && r.agent.tenantId == b.tenantId && r.agent.operatorId == b.operatorId
                           && r.agent.agentId == b.agentId && r.agent.runtime == b.runtime && r.agent.strategyId == b.strategyId;
            var policy := context && r.policyId == b.policyId && r.policyVersion == b.policyVersion;
            var hashed := policy && receipt.policyHash == b.policyHash;
            && (out == Some(ContextMismatch) <==> !context) && (out == Some(PolicyIdentityMismatch) <==> context && !policy)
            && (out == Some(PolicyHashMismatch) <==> policy && !hashed)
            && (out == Some(IssuerMismatch) <==> hashed && receipt.issuer != b.issuer)
            && (out == Some(KeyMismatch) <==> hashed && receipt.issuer == b.issuer && receipt.keyId != b.keyId)
            && (out.None? <==> InLane(r, receipt, b))
  {
  }

  /** Each way of stopping an order has its own condition, and the first that holds is the answer. */
  lemma BlockedExactlyWhen(h: R.Hashing, proposed: Request, receipt: R.Receipt, at: Instant, b: Binding, key: Option<R.Key>)
    ensures var block := VerifyOrder(h, proposed, receipt, at, b, key);
            if !ValidRequest(proposed) then block == Some(RequestInvalid)
            else if proposed.mode != Paper then block == Some(ModeNotSupported)
            else if R.Verify(h, receipt, at, key).Err? then block == Some(ReceiptInvalid(R.Verify(h, receipt, at, key).error))
            else if receipt.request != proposed then block == Some(RequestMismatch)
            else if !InLane(proposed, receipt, b) then block.Some? && block == BindingMismatch(proposed, receipt, b)
            else if receipt.decision.outcome != Pass then block == Some(DecisionBlocked(receipt.decision.outcome))
            else block.None?
  {
    MismatchExactlyWhen(proposed, receipt, b);
    if R.Verify(h, receipt, at, key).Ok? {
      R.VerifiedIsBound(h, receipt, at, key);
      R.VerifiedIsEnforced(h, receipt, at, key);
    }
  }

  /**
   * An order is let through exactly when the receipt verifies now, is for this very paper request in this
   * lane, and says pass.  That the decision is enforced and the hash is the request's follows.
   */
  lemma AuthorizedExactlyWhen(h: R.Hashing, proposed: Request, receipt: R.Receipt, at: Instant, b: Binding, key: Option<R.Key>)
    ensures VerifyOrder(h, proposed, receipt, at, b, key).None?
            <==> && R.Verify(h, receipt, at, key).Ok? && receipt.request == proposed && proposed.mode == Paper
                 && InLane(proposed, receipt, b) && receipt.decision.outcome == Pass
  {
    BlockedExactlyWhen(h, proposed, receipt, at, b, key);
    if R.Verify(h, receipt, at, key).Ok? {
      R.VerifiedIsBound(h, receipt, at, key);
    }
  }

  /** An authorised order satisfies its policy at the moment of authorisation, not only when the receipt was issued. */
  lemma AuthorizedPassesNow(h: R.Hashing, proposed: Request, receipt: R.Receipt, at: Instant, b: Binding, key: Option<R.Key>)
    requires VerifyOrder(h, proposed, receipt, at, b, key).None?
    ensures ValidEvidence(receipt.evidence) && ValidPreview(receipt.preview)
    ensures Decide(proposed, receipt.evidence, receipt.preview, receipt.policy, at, receipt.profile == R.HmacSha256).outcome == Pass
    ensures h.policy(receipt.policy) == b.policyHash
  {
    AuthorizedExactlyWhen(h, proposed, receipt, at, b, key);
    R.VerifiedIsBound(h, receipt, at, key);
    R.WholeLifeTruth(h, receipt, at, key, at);
  }

  /** The outcome of one submission and the claim store after it. */
  function SubmitSpec(h: R.Hashing, g: Guard, max: nat, proposed: Request, receipt: R.Receipt, clock: Option<Instant>,
                      claimClock: Option<Instant>, b: Binding, key: Option<R.Key>): (Guard, Option<Block>) {
    if clock.None? then (g, Some(GatewayClockUnavailable))
    else
      var block := VerifyOrder(h, proposed, receipt, clock.value, b, key);
      if block.Some? then (g, block)
      else
        var (next, answer) := Step(g, max, receipt.receiptId, receipt.expiresAt, claimClock);
        (next, if answer == Answered(true) then None
               else if answer == ClockUnavailable then Some(ConsumerUnavailable) else Some(ReceiptReplay))
  }

  /**
   * An order goes to the broker exactly when both clocks can be read, nothing blocks it, and the claim is granted; a
   * blocked order claims nothing, and a refused claim is told apart from one that could not be asked for.
   */
  lemma SubmittedExactlyWhen(h: R.Hashing, g: Guard, max: nat, proposed: Request, receipt: R.Receipt, clock: Option<Instant>,
                             claimClock: Option<Instant>, b: Binding, key: Option<R.Key>)
    ensures var (next, block) := SubmitSpec(h, g, max, proposed, receipt, clock, claimClock, b, key);
            var free := clock.Some? && VerifyOrder(h, proposed, receipt, clock.value, b, key).None?;
            var granted := && claimClock.Some? && (g.lastNow.Some? ==> g.lastNow.value <= claimClock.value)
                           && claimClock.value < receipt.expiresAt
                           && (receipt.receiptId in g.used ==> g.used[receipt.receiptId] <= claimClock.value)
                           && |set id | id in g.used && g.used[id] > claimClock.value| < max;
            && (block == Some(GatewayClockUnavailable) <==> clock.None?)
            && (block == None <==> free && granted)
            && (block == Some(ConsumerUnavailable) <==> free && claimClock.None?)
            && (block == Some(ReceiptReplay) <==> free && claimClock.Some? && !granted)
            && (!free ==> next == g)
            && (clock.Some? && !free ==> block == VerifyOrder(h, proposed, receipt, clock.value, b, key))
  {
    if clock.Some? {
      BlockCodes(h, proposed, receipt, clock.value, b, key);
    }
    if claimClock.Some? {
      LiveClaims(g.used, claimClock.value);
    }
  }

  lemma LiveClaims(used: map<string, Instant>, now: Instant)
    ensures |Prune(used, now)| == |set id | id in used && used[id] > now|
  {
    assert Prune(used, now).Keys == set id | id in used && used[id] > now;
  }

  /** Codes that only the claim and the gateway's own clock give. */
  predicate IsClaimCode(block: Option<Block>) {
    block.Some? && (block.value.GatewayClockUnavailable? || block.value.ConsumerUnavailable? || block.value.ReceiptReplay?)
  }

  lemma BlockCodes(h: R.Hashing, proposed: Request, receipt: R.Receipt, at: Instant, b: Binding, key: Option<R.Key>)
    ensures !IsClaimCode(VerifyOrder(h, proposed, receipt, at, b, key))
  {
    BlockedExactlyWhen(h, proposed, receipt, at, b, key);
    MismatchExactlyWhen(proposed, receipt, b);
  }

  class PaperOrderGateway {
    const h: R.Hashing
    const binding: Binding
    const key: R.Key
    const consumer: InMemoryReceiptConsumer
    /** The receipts whose orders reached the broker, in order. */
    var submitted: seq<R.Receipt>

    constructor (h: R.Hashing, binding: Binding, key: R.Key, consumer: InMemoryReceiptConsumer)
      requires binding.keyId.Some? && key != []
      ensures this.h == h && this.binding == binding && this.key == key && this.consumer == consumer && submitted == []
    {
      this.h, this.binding, this.key, this.consumer, this.submitted := h, binding, key, consumer, [];
    }

    method Submit(proposed: Request, receipt: R.Receipt, clock: Option<Instant>, claimClock: Option<Instant>)
      returns (block: Option<Block>)
      modifies this, consumer
      ensures (consumer.State(), block)
              == SubmitSpec(h, old(consumer.State()), consumer.maxEntries, proposed, receipt, clock, claimClock, binding, Some(key))
      ensures submitted == if block.None? then old(submitted) + [receipt] else old(submitted)
    {
      if clock.None? {
        return Some(GatewayClockUnavailable);
      }
      block := VerifyOrder(h, proposed, receipt, clock.value, binding, Some(key));
      if block.Some? {
        return;
      }
      var answer := consumer.Consume(receipt.receiptId, receipt.expiresAt, claimClock);
      if answer.ClockUnavailable? {
        return Some(ConsumerUnavailable);
      }
      if !answer.claimed {
        return Some(ReceiptReplay);
      }
      submitted := submitted + [receipt];
      return None;
    }
  }

  // ----- whole runs of one gateway -----

  datatype Submission = Submission(proposed: Request, receipt: R.Receipt, clock: Option<Instant>, claimClock: Option<Instant>)

  function StateAfter(h: R.Hashing, max: nat, b: Binding, key: Option<R.Key>, run: seq<Submission>, n: nat): Guard
    requires n <= |run|
  {
    if n == 0 then EMPTY
    else
      var s := run[n - 1];
      SubmitSpec(h, StateAfter(h, max, b, key, run, n - 1), max, s.proposed, s.receipt, s.clock, s.claimClock, b, key).0
  }

  predicate Reaches(h: R.Hashing, max: nat, b: Binding, key: Option<R.Key>, run: seq<Submission>, k: nat)
    requires k < |run|
  {
    var s := run[k];
    SubmitSpec(h, StateAfter(h, max, b, key, run, k), max, s.proposed, s.receipt, s.clock, s.claimClock, b, key).1.None?
  }

  /** A blocked submission leaves the claim store alone, like a call whose clock is unavailable. */
  function CallOf(h: R.Hashing, b: Binding, key: Option<R.Key>, s: Submission): Call {
    var verified := s.clock.Some? && VerifyOrder(h, s.proposed, s.receipt, s.clock.value, b, key).None?;
    Call(s.receipt.receiptId, s.receipt.expiresAt, if verified then s.claimClock else None)
  }

  function CallsOf(h: R.Hashing, b: Binding, key: Option<R.Key>, run: seq<Submission>): seq<Call> {
    seq(|run|, k requires 0 <= k < |run| => CallOf(h, b, key, run[k]))
  }

  lemma {:induction false} GatewayRunsTheGuard(h: R.Hashing, max: nat, b: Binding, key: Option<R.Key>, run: seq<Submission>, n: nat)
    requires n <= |run|
    ensures StateAfter(h, max, b, key, run, n) == After(CallsOf(h, b, key, run), max, n)
  {
    if n > 0 {
      GatewayRunsTheGuard(h, max, b, key, run, n - 1);
      assert CallsOf(h, b, key, run)[n - 1] == CallOf(h, b, key, run[n - 1]);
    }
  }

  lemma ReachingIsClaiming(h: R.Hashing, max: nat, b: Binding, key: Option<R.Key>, run: seq<Submission>, k: nat)
    requires k < |run| && Reaches(h, max, b, key, run, k)
    ensures Claims(CallsOf(h, b, key, run), max, k)
    ensures run[k].clock.Some? && VerifyOrder(h, run[k].proposed, run[k].receipt, run[k].clock.value, b, key).None?
  {
    GatewayRunsTheGuard(h, max, b, key, run, k);
    assert CallsOf(h, b, key, run)[k] == CallOf(h, b, key, run[k]);
  }

  /** In any run, under any clocks, one receipt takes at most one order to the broker. */
  lemma ReceiptReachesBrokerAtMostOnce(h: R.Hashing, max: nat, b: Binding, key: Option<R.Key>, run: seq<Submission>, i: nat, j: nat)
    requires i < |run| && j < |run| && i != j && Reaches(h, max, b, key, run, i) && Reaches(h, max, b, key, run, j)
    ensures run[i].receipt != run[j].receipt
    ensures run[i].receipt.receiptId == run[j].receipt.receiptId ==> run[i].receipt.expiresAt != run[j].receipt.expiresAt
  {
    var calls := CallsOf(h, b, key, run);
    ReachingIsClaiming(h, max, b, key, run, i);
    ReachingIsClaiming(h, max, b, key, run, j);
    if calls[i].id == calls[j].id {
      SecondClaimNeedsLaterExpiry(calls, max, if i < j then i else j, if i < j then j else i);
    }
  }

  lemma VerifiedIdIsDigestPrefix(h: R.Hashing, receipt: R.Receipt, at: Instant, key: Option<R.Key>)
    requires R.Verify(h, receipt, at, key).Ok?
    ensures receipt.receiptId == R.IdOf(R.Digest(h, receipt))
  {
    assert R.CheckSeal(h, receipt, key).Ok?;
  }

  lemma IdsAgreeLikePrefixes(d: string, e: string)
    ensures R.IdOf(d) == R.IdOf(e) <==> Prefix(d, 24) == Prefix(e, 24)
  {
    assert R.IdOf(d)[|R.ID_PREFIX|..] == Prefix(d, 24) && R.IdOf(e)[|R.ID_PREFIX|..] == Prefix(e, 24);
  }

  /**
   * Two orders reach the broker on one identity only if the digests of two different records begin with the
   * same 24 digits: identities are truncated, and the guard compares nothing else.
   */
  lemma OneIdTwiceIsPrefixCollision(h: R.Hashing, max: nat, b: Binding, key: Option<R.Key>, run: seq<Submission>, i: nat, j: nat)
    requires i < |run| && j < |run| && i != j && Reaches(h, max, b, key, run, i) && Reaches(h, max, b, key, run, j)
    ensures R.Unsigned(run[i].receipt) != R.Unsigned(run[j].receipt)
    ensures run[i].receipt.receiptId == run[j].receipt.receiptId
            <==> Prefix(R.Digest(h, run[i].receipt), 24) == Prefix(R.Digest(h, run[j].receipt), 24)
  {
    var r, s := run[i].receipt, run[j].receipt;
    ReachingIsClaiming(h, max, b, key, run, i);
    ReachingIsClaiming(h, max, b, key, run, j);
    VerifiedIdIsDigestPrefix(h, r, run[i].clock.value, key);
    VerifiedIdIsDigestPrefix(h, s, run[j].clock.value, key);
    IdsAgreeLikePrefixes(R.Digest(h, r), R.Digest(h, s));
    ReceiptReachesBrokerAtMostOnce(h, max, b, key, run, i, j);
    if R.Unsigned(r) == R.Unsigned(s) {
      assert R.Unsigned(r).expiresAt == r.expiresAt && R.Unsigned(s).expiresAt == s.expiresAt;
    }
  }

  /**
   * Every order that reaches the broker is its receipt's own request in this lane, on evidence about that request; it
   * passes its policy then, and its claim was made before the receipt expired.
   */
  lemma EveryBrokerCallIsAuthorized(h: R.Hashing, max: nat, b: Binding, key: Option<R.Key>, run: seq<Submission>, k: nat)
    requires k < |run| && Reaches(h, max, b, key, run, k)
    ensures run[k].clock.Some? && run[k].claimClock.Some? && run[k].claimClock.value < run[k].receipt.expiresAt
    ensures ValidEvidence(run[k].receipt.evidence) && ValidPreview(run[k].receipt.preview)
    ensures var r := run[k].receipt;
            && r.request == run[k].proposed && run[k].proposed.mode == Paper && h.policy(r.policy) == b.policyHash
            && Decide(r.request, r.evidence, r.preview, r.policy, run[k].clock.value, r.profile == R.HmacSha256).outcome == Pass
    ensures R.Trustworthy(h, run[k].receipt, run[k].clock.value, key) && InLane(run[k].proposed, run[k].receipt, b)
  {
    ReachingIsClaiming(h, max, b, key, run, k);
    AnswersFromHistory(CallsOf(h, b, key, run), max, k);
    assert CallsOf(h, b, key, run)[k] == CallOf(h, b, key, run[k]);
    AuthorizedExactlyWhen(h, run[k].proposed, run[k].receipt, run[k].clock.value, b, key);
    AuthorizedPassesNow(h, run[k].proposed, run[k].receipt, run[k].clock.value, b, key);
    R.VerifiedExactlyWhen(h, run[k].receipt, run[k].clock.value, key);
  }
}
