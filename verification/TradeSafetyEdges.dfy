/**
 * Where the evaluator gives less than it seems to promise: sizes that are present but null are not compared, and
 * evidence exactly at its age limit passes but leaves no window.  Each with an input and the exact condition.
 */
module TradeSafetyEdges {
  import opened Basics
  import opened ReasonLists
  import opened TradeSafety
  import opened TradeSafetyDecision
  import opened TradeSafetyLifetime
  import opened Examples
  import R = TradeSafetyReceipts

  // ----- when the size checks look at all -----

  /** The evidence states a size, and it is this order's. */
  predicate SizeMatches(order: Order, facts: Facts) {
    facts.requestedSize.Num? && Abs(facts.requestedSize.value - order.notional) <= Tolerance(order.notional)
  }

  /** The evidence states a size and a published rung, and they are the same. */
  predicate RungMatches(facts: Facts) {
    && facts.requestedSize.Num? && facts.publishedRung.Num?
    && Abs(facts.publishedRung.value - facts.requestedSize.value) <= Tolerance(facts.requestedSize.value)
  }

  /**
   * A dollar order that is not unavailable was measured for its own size exactly when the evidence states a
   * size at all, and at a published rung exactly when it states both; otherwise the fact is there but null.
   */
  lemma SizeHoldsExactlyWhenStated(r: Request, e: Evidence, b: Preview, p: Policy, at: Instant, authenticated: bool)
    requires ValidInputs(r, e, b, p) && r.order.currency == "USD"
    requires Decide(r, e, b, p, at, authenticated).outcome != Unavailable
    ensures SizeMatches(r.order, e.undertow.facts) <==> e.undertow.facts.requestedSize.Num?
    ensures RungMatches(e.undertow.facts) <==> e.undertow.facts.requestedSize.Num? && e.undertow.facts.publishedRung.Num?
    ensures !e.undertow.facts.requestedSize.Num? ==> e.undertow.facts.requestedSize.Null?
    ensures !e.undertow.facts.publishedRung.Num? ==> e.undertow.facts.publishedRung.Null?
  {
    OutcomeMeaning(r, e, b, p, at, authenticated);
    assert FitIn(Undertow, e, p.maxAgeSeconds, r.mode, at);
  }

  lemma RankedOut(reasons: seq<Reason>, low: nat, high: nat, x: Reason)
    requires Ascending(reasons, Rank, low, high) && (Rank(x) < low || high <= Rank(x))
    ensures x !in reasons
  {
  }

  lemma SizeReasonsSay(order: Order, facts: Facts, p: Policy)
    ensures OrderSizeMismatch in UsdReasons(order, facts, p)
            <==> order.currency == "USD" && Apart(FactNumber(facts.requestedSize), order.notional)
    ensures PublishedRungMismatch in UsdReasons(order, facts, p) <==> OffRung(facts)
  {
  }

  lemma InLastOfThree(x: Reason, xs: seq<Reason>, ys: seq<Reason>, zs: seq<Reason>)
    requires x !in xs && x !in ys
    ensures x in xs + ys + zs <==> x in zs
  {
    assert x in xs + ys + zs <==> x in xs + ys || x in zs;
  }

  lemma InVerdict(x: Reason, unavailable: seq<Reason>, holds: seq<Reason>, limits: seq<Reason>, enforced: bool, p: Policy)
    requires x !in holds && x !in limits && x != PolicySatisfied
    ensures x in Verdict(unavailable, holds, limits, enforced, p).reasons <==> x in unavailable
  {
    assert x in unavailable + holds + limits <==> x in unavailable + holds || x in limits;
  }

  lemma NotAboutEvidence(x: Reason, products: seq<Product>, e: Evidence, ages: Ages, mode: Mode, at: Instant)
    requires ValidEvidence(e) && Distinct(products) && Rank(x) >= 7
    ensures x !in EvidenceReasons(products, e, ages, mode, at)
  {
    EvidenceReasonsDistinct(products, e, ages, mode, at);
  }

  /** The reasons about sizes come from the size checks alone. */
  lemma SizeReasonIsUsd(x: Reason, r: Request, e: Evidence, b: Preview, p: Policy, at: Instant, authenticated: bool)
    requires ValidEvidence(e) && ValidPreview(b) && Distinct(p.requiredProducts) && 14 <= Rank(x) <= 15
    ensures x in UnavailableReasons(r, e, b, p, at, authenticated) <==> x in UsdReasons(r.order, e.undertow.facts, p)
  {
    var live := if r.mode == Live then LiveReasons(e, b, p, at, authenticated) else [];
    NotAboutEvidence(x, p.requiredProducts, e, p.maxAgeSeconds, r.mode, at);
    assert x !in live by {
      LiveReasonsAscend(e, b, p, at, authenticated);
      RankedOut(LiveReasons(e, b, p, at, authenticated), 7, 12, x);
    }
    InLastOfThree(x, EvidenceReasons(p.requiredProducts, e, p.maxAgeSeconds, r.mode, at), live,
                  UsdReasons(r.order, e.undertow.facts, p));
  }

  lemma NotHoldOrLimit(x: Reason, order: Order, e: Evidence, p: Policy)
    requires 14 <= Rank(x) <= 15
    ensures x !in HoldReasons(e, p) && x !in LimitReasons(order, e.undertow.facts, p) && x != PolicySatisfied
  {
    HoldReasonsAscend(e, p);
    RankedOut(HoldReasons(e, p), 12, 13, x);
    LimitReasonsAscend(order, e.undertow.facts, p);
    RankedOut(LimitReasons(order, e.undertow.facts, p), 18, 21, x);
  }

  /** The two size reasons are reported exactly when their comparison fails. */
  lemma SizeReasonsReported(r: Request, e: Evidence, b: Preview, p: Policy, at: Instant, authenticated: bool)
    requires ValidEvidence(e) && ValidPreview(b) && Distinct(p.requiredProducts)
    ensures OrderSizeMismatch in Decide(r, e, b, p, at, authenticated).reasons
            <==> r.order.currency == "USD" && Apart(FactNumber(e.undertow.facts.requestedSize), r.order.notional)
    ensures PublishedRungMismatch in Decide(r, e, b, p, at, authenticated).reasons <==> OffRung(e.undertow.facts)
  {
    SizeReasonReported(OrderSizeMismatch, r, e, b, p, at, authenticated);
    SizeReasonReported(PublishedRungMismatch, r, e, b, p, at, authenticated);
    SizeReasonsSay(r.order, e.undertow.facts, p);
  }

  lemma SizeReasonReported(x: Reason, r: Request, e: Evidence, b: Preview, p: Policy, at: Instant, authenticated: bool)
    requires ValidEvidence(e) && ValidPreview(b) && Distinct(p.requiredProducts) && 14 <= Rank(x) <= 15
    ensures x in Decide(r, e, b, p, at, authenticated).reasons <==> x in UsdReasons(r.order, e.undertow.facts, p)
  {
    SizeReasonIsUsd(x, r, e, b, p, at, authenticated);
    NotHoldOrLimit(x, r.order, e, p);
    InVerdict(x, UnavailableReasons(r, e, b, p, at, authenticated), HoldReasons(e, p),
              LimitReasons(r.order, e.undertow.facts, p), r.mode != Observe, p);
  }

  function WithSizes(e: Evidence, requested: Fact, rung: Fact): Evidence {
    e.(undertow := e.undertow.(facts := e.undertow.facts.(requestedSize := requested, publishedRung := rung)))
  }

  lemma WithSizesIsValid(e: Evidence, requested: Fact, rung: Fact)
    requires ValidEvidence(e) && Usable(e.undertow.state) && Positive(requested) && Positive(rung)
    requires !requested.Absent? && !rung.Absent?
    ensures ValidEvidence(WithSizes(e, requested, rung))
  {
  }

  predicate LetsThrough(r: Request, e: Evidence, b: Preview, p: Policy, at: Instant, authenticated: bool, mismatch: Reason)
    requires ValidEvidence(e) && ValidPreview(b)
  {
    mismatch !in Decide(r, e, b, p, at, authenticated).reasons
  }

  lemma FarApart(v: real)
    requires v > 0.0
    ensures 2.0 * v + 1.0 > 0.0 && Abs(v - (2.0 * v + 1.0)) > Tolerance(2.0 * v + 1.0)
    ensures Abs((2.0 * v + 1.0) - v) > Tolerance(v)
  {
  }

  /** The size check lets every notional through exactly when the requested size is null. */
  lemma NullSizeLetsEveryNotionalThrough(r: Request, e: Evidence, b: Preview, p: Policy, at: Instant, authenticated: bool)
    requires ValidInputs(r, e, b, p) && r.order.currency == "USD" && Usable(e.undertow.state)
    ensures (forall n: real | n > 0.0 :: LetsThrough(WithNotional(r, n), e, b, p, at, authenticated, OrderSizeMismatch))
            <==> e.undertow.facts.requestedSize.Null?
  {
    var size := e.undertow.facts.requestedSize;
    if size.Null? {
      forall n: real | n > 0.0 ensures LetsThrough(WithNotional(r, n), e, b, p, at, authenticated, OrderSizeMismatch) {
        SizeReasonsReported(WithNotional(r, n), e, b, p, at, authenticated);
      }
    } else {
      var n := 2.0 * size.value + 1.0;
      FarApart(size.value);
      SizeReasonsReported(WithNotional(r, n), e, b, p, at, authenticated);
      assert !LetsThrough(WithNotional(r, n), e, b, p, at, authenticated, OrderSizeMismatch);
    }
  }

  /** The two numbers as they are read, one of which may be null, are compared exactly when both are there. */
  function Sizes(requested: Fact, rung: Fact): Facts {
    Facts(None, requested, rung, Null, Null, {})
  }

  lemma RungLetThrough(r: Request, e: Evidence, requested: Fact, rung: Fact, b: Preview, p: Policy, at: Instant, authenticated: bool)
    requires ValidInputs(r, e, b, p) && Usable(e.undertow.state)
    requires !requested.Absent? && !rung.Absent? && Positive(requested) && Positive(rung)
    ensures ValidEvidence(WithSizes(e, requested, rung))
    ensures LetsThrough(r, WithSizes(e, requested, rung), b, p, at, authenticated, PublishedRungMismatch)
            <==> !OffRung(Sizes(requested, rung))
  {
    WithSizesIsValid(e, requested, rung);
    SizeReasonsReported(r, WithSizes(e, requested, rung), b, p, at, authenticated);
  }

  lemma SizesOfValid(e: Evidence)
    requires ValidEvidence(e) && Usable(e.undertow.state)
    ensures Positive(e.undertow.facts.requestedSize) && Positive(e.undertow.facts.publishedRung)
    ensures !e.undertow.facts.requestedSize.Absent? && !e.undertow.facts.publishedRung.Absent?
  {
  }

  lemma FarFromRung(v: real)
    requires v > 0.0
    ensures 2.0 * v + 1.0 > 0.0
    ensures OffRung(Sizes(Num(2.0 * v + 1.0), Num(v))) && OffRung(Sizes(Num(v), Num(2.0 * v + 1.0)))
  {
    FarApart(v);
  }

  /** The rung check lets every requested size through exactly when the published rung is null. */
  lemma NullRungLetsEverySizeThrough(r: Request, e: Evidence, b: Preview, p: Policy, at: Instant, authenticated: bool)
    requires ValidInputs(r, e, b, p) && Usable(e.undertow.state)
    ensures (forall v: real | v > 0.0 ::
               var f := WithSizes(e, Num(v), e.undertow.facts.publishedRung);
               ValidEvidence(f) && LetsThrough(r, f, b, p, at, authenticated, PublishedRungMismatch))
            <==> e.undertow.facts.publishedRung.Null?
  {
    var rung := e.undertow.facts.publishedRung;
    SizesOfValid(e);
    forall v: real | v > 0.0
      ensures ValidEvidence(WithSizes(e, Num(v), rung))
      ensures LetsThrough(r, WithSizes(e, Num(v), rung), b, p, at, authenticated, PublishedRungMismatch)
              <==> !OffRung(Sizes(Num(v), rung))
    {
      RungLetThrough(r, e, Num(v), rung, b, p, at, authenticated);
    }
    if !rung.Null? {
      FarFromRung(rung.value);
    }
  }

  /** The rung check lets every published rung through exactly when the requested size is null. */
  lemma NullSizeLetsEveryRungThrough(r: Request, e: Evidence, b: Preview, p: Policy, at: Instant, authenticated: bool)
    requires ValidInputs(r, e, b, p) && Usable(e.undertow.state)
    ensures (forall v: real | v > 0.0 ::
               var f := WithSizes(e, e.undertow.facts.requestedSize, Num(v));
               ValidEvidence(f) && LetsThrough(r, f, b, p, at, authenticated, PublishedRungMismatch))
            <==> e.undertow.facts.requestedSize.Null?
  {
    var size := e.undertow.facts.requestedSize;
    SizesOfValid(e);
    forall v: real | v > 0.0
      ensures ValidEvidence(WithSizes(e, size, Num(v)))
      ensures LetsThrough(r, WithSizes(e, size, Num(v)), b, p, at, authenticated, PublishedRungMismatch)
              <==> !OffRung(Sizes(size, Num(v)))
    {
      RungLetThrough(r, e, size, Num(v), b, p, at, authenticated);
    }
    if !size.Null? {
      FarFromRung(size.value);
    }
  }

  // ----- inputs -----

  /** Orders of every size up to the cap pass on one and the same evidence, whose sizes are null. */
  lemma NullSizesPass(requestHash: string, notional: real)
    requires 0.0 < notional <= 1000.0
    ensures ValidInputs(WithNotional(REQUEST, notional), CalmEvidence(requestHash, 0, 0, Null), Unpreviewed(requestHash, 0), POLICY)
    ensures Decide(WithNotional(REQUEST, notional), CalmEvidence(requestHash, 0, 0, Null), Unpreviewed(requestHash, 0), POLICY, 0, false)
            .outcome == Pass
    ensures !SizeMatches(WithNotional(REQUEST, notional).order, CalmEvidence(requestHash, 0, 0, Null).undertow.facts)
  {
    RequestIsValid(notional);
    PolicyIsValid();
    CalmEvidencePasses(WithNotional(REQUEST, notional), requestHash, 0, 0, Null, false);
  }

  /** An order on evidence exactly as old as the policy allows. */
  function AtAgeLimit(h: R.Hashing): R.Inputs {
    var requestHash := h.request(REQUEST);
    R.Inputs(REQUEST, CalmEvidence(requestHash, -AGE * SECOND, 0, Null), POLICY, Unpreviewed(requestHash, 0), 0, ISSUER, 60, None, None)
  }

  lemma AtAgeLimitIsAccepted(h: R.Hashing)
    ensures R.InputRefusal(h, AtAgeLimit(h)).Ok?
  {
    assert WithNotional(REQUEST, 1000.0) == REQUEST;
    RequestIsValid(1000.0);
    PolicyIsValid();
    CalmEvidenceIsValid(h.request(REQUEST), -AGE * SECOND, 0, Null);
  }

  /** A decision of PASS that the issuer refuses. */
  lemma PassAtAgeLimitIsRefused(h: R.Hashing)
    ensures R.InputRefusal(h, AtAgeLimit(h)).Ok?
    ensures R.IssuedDecision(AtAgeLimit(h)).outcome == Pass && R.Refused(h, AtAgeLimit(h), R.NoSafeWindow)
  {
    AtAgeLimitIsAccepted(h);
    CalmEvidencePasses(REQUEST, h.request(REQUEST), -AGE * SECOND, 0, Null, false);
    CalmWindow(REQUEST, h.request(REQUEST), -AGE * SECOND, 0, Null, false);
  }
}
