/** Concrete orders, policies and evidence, shared by the lemmas that exhibit an input. */
module Examples {
  import opened Basics
  import opened TradeSafety
  import opened TradeSafetyLifetime
  import R = TradeSafetyReceipts

  /** The greatest age the policy allows, in seconds. */
  const AGE: int := 3600

  const POLICY := Policy("policy", "1", [Seiche, Undertow], Ages(AGE, AGE, AGE), [Stress], Some(1000.0), Some(50.0), Some(20.0),
                         true, true, true, false)

  const ISSUER := R.Issuer("gateway", "1", "https://example.org")

  function Sale(symbol: string): Order {
    Order("crypto", symbol, map[], Sell, Market, 1000.0, "USD", None, None, None, None, "IOC")
  }

  function AgentWith(scope: seq<string>): Agent {
    Agent("agent", "operator", "tenant", "account", "runtime", None, scope)
  }

  /** An order that is only to be observed. */
  const REQUEST := Request("request", 0, 90 * SECOND, Observe, AgentWith([]), Sale("BTC"), "policy", "1")

  function WithNotional(r: Request, n: real): Request {
    r.(order := r.order.(notional := n))
  }

  /** A paper order asked for at a given time, as an agent host writes it. */
  function Asked(at: Instant): Request {
    Request("agent-intent", at, at + 90 * SECOND, Paper, AgentWith(["evidence:read", "orders:paper"]), Sale("BTC/USD"), "policy", "1")
  }

  /** A section observed at one time and retrieved at another, good for a minute, with one size or none. */
  function Calmly(requestHash: string, asOf: Instant, at: Instant, size: Fact): Section {
    Section(requestHash, ContextOnly, Some(""), Some(asOf), Some(at), at, Some(at + 60 * SECOND), MetadataOnly, false, false,
            Facts(Some(Calm), size, size, Num(10.0), Num(5.0), {}))
  }

  function Unasked(requestHash: string, at: Instant): Section {
    Section(requestHash, NotApplicable, None, None, None, at, None, MetadataOnly, false, false,
            Facts(None, Absent, Absent, Absent, Absent, {}))
  }

  function CalmEvidence(requestHash: string, asOf: Instant, at: Instant, size: Fact): Evidence {
    Evidence(Calmly(requestHash, asOf, at, size), Calmly(requestHash, asOf, at, size), Unasked(requestHash, at))
  }

  function Unpreviewed(requestHash: string, at: Instant): Preview {
    Preview(PreviewNotApplicable, "account", requestHash, None, at, None)
  }

  predicate PositiveSize(size: Fact) {
    size.Null? || (size.Num? && size.value > 0.0)
  }

  /** Dollar orders within the caps, stated in the size of the evidence if it states one. */
  predicate Sized(order: Order, size: Fact) {
    order.currency == "USD" && 0.0 < order.notional <= 1000.0 && (size == Null || size == Num(order.notional))
  }

  lemma CalmSectionIsValid(p: Product, requestHash: string, asOf: Instant, at: Instant, size: Fact)
    requires asOf <= at && PositiveSize(size)
    ensures ValidSection(p, Calmly(requestHash, asOf, at, size))
  {
  }

  lemma CalmEvidenceIsValid(requestHash: string, asOf: Instant, at: Instant, size: Fact)
    requires asOf <= at && PositiveSize(size)
    ensures ValidEvidence(CalmEvidence(requestHash, asOf, at, size)) && ValidPreview(Unpreviewed(requestHash, at))
  {
    CalmSectionIsValid(Seiche, requestHash, asOf, at, size);
    CalmSectionIsValid(Undertow, requestHash, asOf, at, size);
  }

  lemma PolicyIsValid()
    ensures ValidPolicy(POLICY)
  {
    assert POLICY.requiredProducts[0] == Seiche && POLICY.requiredProducts[1] == Undertow;
  }

  lemma RequestIsValid(notional: real)
    requires notional > 0.0
    ensures ValidRequest(WithNotional(REQUEST, notional))
  {
  }

  lemma AskedIsValid(at: Instant)
    ensures ValidRequest(Asked(at))
  {
    assert Asked(at).agent.scope[1] == "orders:paper";
  }

  lemma CalmlyFits(p: Product, requestHash: string, asOf: Instant, at: Instant, size: Fact, mode: Mode)
    requires mode != Live && at - AGE * SECOND <= asOf <= at && PositiveSize(size)
    ensures ValidSection(p, Calmly(requestHash, asOf, at, size)) && Fit(p, Calmly(requestHash, asOf, at, size), AGE, mode, at)
  {
    CalmSectionIsValid(p, requestHash, asOf, at, size);
  }

  lemma CalmAllFit(r: Request, requestHash: string, asOf: Instant, at: Instant, size: Fact)
    requires r.mode != Live && at - AGE * SECOND <= asOf <= at && PositiveSize(size)
    requires ValidEvidence(CalmEvidence(requestHash, asOf, at, size))
    ensures AllFit(r, CalmEvidence(requestHash, asOf, at, size), POLICY, at)
  {
    var e := CalmEvidence(requestHash, asOf, at, size);
    CalmlyFits(Seiche, requestHash, asOf, at, size, r.mode);
    CalmlyFits(Undertow, requestHash, asOf, at, size, r.mode);
    forall x | x in POLICY.requiredProducts ensures FitIn(x, e, POLICY.maxAgeSeconds, r.mode, at) {
      assert e.Of(x) == Calmly(requestHash, asOf, at, size) && POLICY.maxAgeSeconds.Of(x) == AGE;
    }
  }

  lemma CalmIsComparable(order: Order, requestHash: string, asOf: Instant, at: Instant, size: Fact)
    requires Sized(order, size)
    ensures Comparable(order, CalmEvidence(requestHash, asOf, at, size).undertow.facts, POLICY)
    ensures !OverLimit(order, CalmEvidence(requestHash, asOf, at, size).undertow.facts, POLICY)
  {
  }

  lemma CalmIsNotHeld(requestHash: string, asOf: Instant, at: Instant, size: Fact)
    ensures !Held(CalmEvidence(requestHash, asOf, at, size), POLICY)
  {
  }

  /** Calm evidence within the age limit, of the order's size or of none, gives PASS. */
  lemma CalmEvidencePasses(r: Request, requestHash: string, asOf: Instant, at: Instant, size: Fact, authenticated: bool)
    requires r.mode != Live && Sized(r.order, size) && at - AGE * SECOND <= asOf <= at
    ensures ValidEvidence(CalmEvidence(requestHash, asOf, at, size)) && ValidPreview(Unpreviewed(requestHash, at))
    ensures Decide(r, CalmEvidence(requestHash, asOf, at, size), Unpreviewed(requestHash, at), POLICY, at, authenticated).outcome == Pass
  {
    CalmEvidenceIsValid(requestHash, asOf, at, size);
    CalmAllFit(r, requestHash, asOf, at, size);
    CalmIsComparable(r.order, requestHash, asOf, at, size);
    CalmIsNotHeld(requestHash, asOf, at, size);
    OutcomeMeaning(r, CalmEvidence(requestHash, asOf, at, size), Unpreviewed(requestHash, at), POLICY, at, authenticated);
  }

  /** And its decision stands for a while exactly when it is not exactly at its age limit. */
  lemma CalmWindow(r: Request, requestHash: string, asOf: Instant, at: Instant, size: Fact, authenticated: bool)
    requires r.mode != Live && Sized(r.order, size) && at - AGE * SECOND <= asOf <= at < r.expiresAt
    requires ValidEvidence(CalmEvidence(requestHash, asOf, at, size)) && ValidPreview(Unpreviewed(requestHash, at))
    ensures var c := Ceiling(r, CalmEvidence(requestHash, asOf, at, size), Unpreviewed(requestHash, at), POLICY, at, 60, true);
            c <= at + 60 * SECOND && (c <= at <==> at == asOf + AGE * SECOND)
  {
    var e, b := CalmEvidence(requestHash, asOf, at, size), Unpreviewed(requestHash, at);
    CalmEvidencePasses(r, requestHash, asOf, at, size, authenticated);
    NoWindowExactlyAtAgeLimit(r, e, b, POLICY, at, authenticated, 60);
    CeilingMeaning(r, e, b, POLICY, at, 60, true, at + 60 * SECOND);
    CalmAges(requestHash, asOf, at, size);
  }

  lemma CalmAges(requestHash: string, asOf: Instant, at: Instant, size: Fact)
    ensures SomeAtAgeLimit(CalmEvidence(requestHash, asOf, at, size), POLICY, at) <==> at == asOf + AGE * SECOND
  {
    var e := CalmEvidence(requestHash, asOf, at, size);
    forall x | x in POLICY.requiredProducts ensures AsOldAsAllowed(x, e, POLICY, at) <==> at == asOf + AGE * SECOND {
      assert e.Of(x) == Calmly(requestHash, asOf, at, size) && POLICY.maxAgeSeconds.Of(x) == AGE;
    }
    assert POLICY.requiredProducts[0] in POLICY.requiredProducts;
  }
}
