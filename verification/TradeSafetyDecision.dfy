/** The evaluator as the loop it is, refining the decision function. */
module TradeSafetyDecision {
  import opened Basics
  import opened ReasonLists
  import opened TradeSafety

  /** The place of a reason in the order in which the evaluator looks for reasons. */
  function Rank(reason: Reason): nat {
    match reason
    case EvidenceUnusable(_, _) => 0
    case RightsNotUsable(_) => 1
    case NotYetKnown(_) => 2
    case NotYetRetrieved(_) => 3
    case Expired(_) => 4
    case TooOld(_) => 5
    case NotRealMoney(_) => 6
    case LiveAuthenticationMissing => 7
    case ExecutableQuoteUnavailable => 8
    case PreviewUnavailable => 9
    case PreviewNotYetRetrieved => 10
    case PreviewExpired => 11
    case RegimeHeld(_) => 12
    case UsdPolicyRequiresUsd => 13
    case OrderSizeMismatch => 14
    case PublishedRungMismatch => 15
    case ExitCostMissing => 16
    case VenueSpreadMissing => 17
    case MaxNotionalExceeded => 18
    case ExitCostExceeded => 19
    case VenueSpreadExceeded => 20
    case PolicySatisfied => 21
  }

  ghost predicate RanksBelow(reasons: seq<Reason>, k: nat) {
    forall x :: x in reasons ==> Rank(x) < k
  }

  ghost predicate Within(reasons: seq<Reason>, products: seq<Product>) {
    forall x :: x in reasons ==> Rank(x) < 7 && x.product in products
  }

  /** Adds a reason to the list `base + tail` unless it is there already; here it never is. */
  method AppendReason(reasons: seq<Reason>, c: bool, reason: Reason, ghost base: seq<Reason>, ghost tail: seq<Reason>)
    returns (r: seq<Reason>)
    requires reasons == base + tail
    requires reason !in base && RanksBelow(tail, Rank(reason))
    ensures r == base + (tail + When(c, reason))
    ensures RanksBelow(tail + When(c, reason), Rank(reason) + 1)
  {
    if c && reason !in reasons {
      r := reasons + [reason];
      assert r == base + (tail + [reason]);
    } else {
      r := reasons;
      assert tail + [] == tail;
      assert c ==> reason in tail;
    }
  }

  method AppendProductReasons(reasons: seq<Reason>, p: Product, s: Section, maxAge: int, mode: Mode, at: Instant)
    returns (r: seq<Reason>)
    requires ValidSection(p, s)
    requires forall x :: x in reasons && Rank(x) < 7 ==> x.product != p
    ensures r == reasons + ProductReasons(p, s, maxAge, mode, at)
  {
    if !Usable(s.state) {
      r := AppendReason(reasons, true, EvidenceUnusable(p, s.state), reasons, []);
      return;
    }
    ghost var t0 := When(UnsafeRights(s.rights), RightsNotUsable(p));
    r := AppendReason(reasons, UnsafeRights(s.rights), RightsNotUsable(p), reasons, []);
    assert [] + t0 == t0;
    ghost var t1 := t0 + When(at < s.knowledgeTime.value, NotYetKnown(p));
    r := AppendReason(r, at < s.knowledgeTime.value, NotYetKnown(p), reasons, t0);
    ghost var t2 := t1 + When(at < s.retrievedAt, NotYetRetrieved(p));
    r := AppendReason(r, at < s.retrievedAt, NotYetRetrieved(p), reasons, t1);
    ghost var t3 := t2 + When(s.expiresAt.value <= at, Expired(p));
    r := AppendReason(r, at >= s.expiresAt.value, Expired(p), reasons, t2);
    ghost var t4 := t3 + When(at - s.asOf.value > maxAge * SECOND, TooOld(p));
    r := AppendReason(r, at - s.asOf.value > maxAge * SECOND, TooOld(p), reasons, t3);
    r := AppendReason(r, mode == Live && !s.realMoneyEligible, NotRealMoney(p), reasons, t4);
  }

  method AppendLiveReasons(reasons: seq<Reason>, e: Evidence, b: Preview, p: Policy, at: Instant, authenticated: bool)
    returns (r: seq<Reason>)
    requires ValidPreview(b) && RanksBelow(reasons, 7)
    ensures r == reasons + LiveReasons(e, b, p, at, authenticated)
  {
    var unquoted, unpreviewed := p.liveRequiresQuote && !e.undertow.executableQuote, p.liveRequiresPreview && b.state != Verified;
    ghost var t0 := When(!authenticated, LiveAuthenticationMissing);
    r := AppendReason(reasons, !authenticated, LiveAuthenticationMissing, reasons, []);
    assert [] + t0 == t0;
    ghost var t1 := t0 + When(unquoted, ExecutableQuoteUnavailable);
    r := AppendReason(r, unquoted, ExecutableQuoteUnavailable, reasons, t0);
    ghost var t2 := t1 + When(unpreviewed, PreviewUnavailable);
    r := AppendReason(r, unpreviewed, PreviewUnavailable, reasons, t1);
    r := AppendPreviewReasons(r, b, at, reasons, t2);
  }

  /** The clocks of a verified preview. */
  method AppendPreviewReasons(reasons: seq<Reason>, b: Preview, at: Instant, ghost base: seq<Reason>, ghost tail: seq<Reason>)
    returns (r: seq<Reason>)
    requires ValidPreview(b) && reasons == base + tail && RanksBelow(base, 7) && RanksBelow(tail, 10)
    ensures r == base + (tail + When(b.state == Verified && at < b.retrievedAt, PreviewNotYetRetrieved)
                         + When(b.state == Verified && b.expiresAt.value <= at, PreviewExpired))
  {
    if b.state == Verified {
      r := AppendReason(reasons, at < b.retrievedAt, PreviewNotYetRetrieved, base, tail);
      r := AppendReason(r, at >= b.expiresAt.value, PreviewExpired, base, tail + When(at < b.retrievedAt, PreviewNotYetRetrieved));
    } else {
      r := reasons;
      assert tail + [] + [] == tail;
    }
  }

  method AppendSizeReasons(reasons: seq<Reason>, order: Order, facts: Facts, p: Policy) returns (r: seq<Reason>)
    requires RanksBelow(reasons, 12)
    ensures r == reasons + SizeReasons(order, facts, p)
    ensures RanksBelow(SizeReasons(order, facts, p), 16)
  {
    var foreign := order.currency != "USD" && Capped(p);
    ghost var t0 := When(foreign, UsdPolicyRequiresUsd);
    r := AppendReason(reasons, foreign, UsdPolicyRequiresUsd, reasons, []);
    assert [] + t0 == t0;
    var resized := order.currency == "USD" && Apart(FactNumber(facts.requestedSize), order.notional);
    ghost var t1 := t0 + When(resized, OrderSizeMismatch);
    r := AppendReason(r, resized, OrderSizeMismatch, reasons, t0);
    r := AppendReason(r, OffRung(facts), PublishedRungMismatch, reasons, t1);
  }

  method AppendUsdReasons(reasons: seq<Reason>, order: Order, facts: Facts, p: Policy) returns (r: seq<Reason>)
    requires RanksBelow(reasons, 12)
    ensures r == reasons + UsdReasons(order, facts, p)
  {
    ghost var t0 := SizeReasons(order, facts, p);
    r := AppendSizeReasons(reasons, order, facts, p);
    var noCost := p.maxExitCost.Some? && FactNumber(facts.worstSellCost).None?;
    ghost var t1 := t0 + When(noCost, ExitCostMissing);
    r := AppendReason(r, noCost, ExitCostMissing, reasons, t0);
    var noSpread := p.maxVenueSpread.Some? && FactNumber(facts.venueSpread).None?;
    r := AppendReason(r, noSpread, VenueSpreadMissing, reasons, t1);
  }

  method CollectLimits(order: Order, facts: Facts, p: Policy) returns (limits: seq<Reason>)
    ensures limits == LimitReasons(order, facts, p)
  {
    var over := order.currency == "USD" && p.maxNotional.Some? && order.notional > p.maxNotional.value;
    ghost var t0 := When(over, MaxNotionalExceeded);
    limits := AppendReason([], over, MaxNotionalExceeded, [], []);
    assert [] + ([] + t0) == t0;
    var costly := Exceeds(FactNumber(facts.worstSellCost), p.maxExitCost);
    ghost var t1 := t0 + When(costly, ExitCostExceeded);
    limits := AppendReason(limits, costly, ExitCostExceeded, [], t0);
    assert [] + t1 == t1;
    var wide := Exceeds(FactNumber(facts.venueSpread), p.maxVenueSpread);
    ghost var t2 := t1 + When(wide, VenueSpreadExceeded);
    limits := AppendReason(limits, wide, VenueSpreadExceeded, [], t1);
    assert [] + t2 == t2;
  }

  lemma WithinAppend(xs: seq<Reason>, c: bool, x: Reason, p: Product)
    requires Within(xs, [p]) && Rank(x) < 7 && x.product == p
    ensures Within(xs + When(c, x), [p])
  {
    assert forall y :: y in xs + When(c, x) ==> y in xs || y == x;
  }

  /** One more product's reasons, after those of the products before it. */
  lemma EvidenceReasonsGrow(e: Evidence, products: seq<Product>, i: nat, ages: Ages, mode: Mode, at: Instant)
    requires ValidEvidence(e) && i < |products| && Within(EvidenceReasons(products[..i], e, ages, mode, at), products[..i])
    ensures ValidSection(products[i], e.Of(products[i]))
    ensures EvidenceReasons(products[..i + 1], e, ages, mode, at)
            == EvidenceReasons(products[..i], e, ages, mode, at)
               + ProductReasons(products[i], e.Of(products[i]), ages.Of(products[i]), mode, at)
    ensures Within(EvidenceReasons(products[..i + 1], e, ages, mode, at), products[..i + 1])
  {
    var p := products[i];
    assert ValidSection(p, e.Of(p));
    assert products[..i + 1][..i] == products[..i] && products[..i + 1] == products[..i] + [p];
    ProductReasonsNameTheProduct(p, e.Of(p), ages.Of(p), mode, at);
    WithinBoth(EvidenceReasons(products[..i], e, ages, mode, at), ProductReasons(p, e.Of(p), ages.Of(p), mode, at), products[..i], p);
  }

  lemma WithinBoth(xs: seq<Reason>, ys: seq<Reason>, products: seq<Product>, p: Product)
    requires Within(xs, products) && Within(ys, [p])
    ensures Within(xs + ys, products + [p])
  {
  }

  lemma ChainNamesTheProduct(p: Product, unsafe: bool, unknown: bool, unfetched: bool, expired: bool, tooOld: bool, unreal: bool)
    ensures Within(When(unsafe, RightsNotUsable(p)) + When(unknown, NotYetKnown(p)) + When(unfetched, NotYetRetrieved(p))
                   + When(expired, Expired(p)) + When(tooOld, TooOld(p)) + When(unreal, NotRealMoney(p)), [p])
  {
    var t := When(unsafe, RightsNotUsable(p));
    WithinAppend(t, unknown, NotYetKnown(p), p);
    t := t + When(unknown, NotYetKnown(p));
    WithinAppend(t, unfetched, NotYetRetrieved(p), p);
    t := t + When(unfetched, NotYetRetrieved(p));
    WithinAppend(t, expired, Expired(p), p);
    t := t + When(expired, Expired(p));
    WithinAppend(t, tooOld, TooOld(p), p);
    WithinAppend(t + When(tooOld, TooOld(p)), unreal, NotRealMoney(p), p);
  }

  lemma ProductReasonsNameTheProduct(p: Product, s: Section, maxAge: int, mode: Mode, at: Instant)
    requires ValidSection(p, s)
    ensures Within(ProductReasons(p, s, maxAge, mode, at), [p])
  {
    if Usable(s.state) {
      ChainNamesTheProduct(p, UnsafeRights(s.rights), at < s.knowledgeTime.value, at < s.retrievedAt, s.expiresAt.value <= at,
                           at - s.asOf.value > maxAge * SECOND, mode == Live && !s.realMoneyEligible);
    } else {
      assert p in [p];
    }
  }

  lemma NothingSaidYet(reasons: seq<Reason>, products: seq<Product>, i: nat)
    requires i < |products| && Distinct(products) && Within(reasons, products[..i])
    ensures forall x :: x in reasons && Rank(x) < 7 ==> x.product != products[i]
  {
    assert forall k :: 0 <= k < i ==> products[..i][k] != products[i];
  }

  /** One pass over the required products. */
  method CollectEvidence(e: Evidence, products: seq<Product>, ages: Ages, mode: Mode, at: Instant)
    returns (unavailable: seq<Reason>)
    requires ValidEvidence(e) && Distinct(products)
    ensures unavailable == EvidenceReasons(products, e, ages, mode, at)
    ensures RanksBelow(unavailable, 7)
  {
    unavailable := [];
    var i := 0;
    while i < |products|
      invariant 0 <= i <= |products|
      invariant unavailable == EvidenceReasons(products[..i], e, ages, mode, at)
      invariant Within(unavailable, products[..i])
    {
      var p := products[i];
      EvidenceReasonsGrow(e, products, i, ages, mode, at);
      NothingSaidYet(unavailable, products, i);
      unavailable := AppendProductReasons(unavailable, p, e.Of(p), ages.Of(p), mode, at);
      i := i + 1;
    }
    assert products[..i] == products;
  }

  lemma LiveReasonsAreRanked(e: Evidence, b: Preview, p: Policy, at: Instant, authenticated: bool)
    requires ValidPreview(b)
    ensures RanksBelow(LiveReasons(e, b, p, at, authenticated), 12)
  {
  }

  lemma RanksOfConcatenation(xs: seq<Reason>, ys: seq<Reason>, k: nat, n: nat)
    requires RanksBelow(xs, k) && RanksBelow(ys, n) && k <= n
    ensures RanksBelow(xs + ys, n)
  {
  }

  /** Everything that makes the verdict unavailable, live conditions only for live requests. */
  method CollectUnavailable(r: Request, e: Evidence, b: Preview, p: Policy, at: Instant, authenticated: bool)
    returns (unavailable: seq<Reason>)
    requires ValidEvidence(e) && ValidPreview(b) && Distinct(p.requiredProducts)
    ensures unavailable == UnavailableReasons(r, e, b, p, at, authenticated)
  {
    unavailable := CollectEvidence(e, p.requiredProducts, p.maxAgeSeconds, r.mode, at);
    ghost var evidence, live: seq<Reason> := unavailable, [];
    if r.mode == Live {
      live := LiveReasons(e, b, p, at, authenticated);
      unavailable := AppendLiveReasons(unavailable, e, b, p, at, authenticated);
      LiveReasonsAreRanked(e, b, p, at, authenticated);
      RanksOfConcatenation(evidence, live, 7, 12);
    }
    assert unavailable == evidence + live && RanksBelow(unavailable, 12);
    unavailable := AppendUsdReasons(unavailable, r.order, e.undertow.facts, p);
  }

  /** The evaluator: three lists filled in turn, then the first non-empty one decides. */
  method EvaluateDecision(r: Request, e: Evidence, b: Preview, p: Policy, at: Instant, authenticated: bool)
    returns (d: Decision)
    requires ValidInputs(r, e, b, p)
    ensures d == Decide(r, e, b, p, at, authenticated)
  {
    var unavailable := CollectUnavailable(r, e, b, p, at, authenticated);
    var holds: seq<Reason> := [];
    if e.seiche.facts.regime.Some? && e.seiche.facts.regime.value in p.holdRegimes {
      holds := [RegimeHeld(e.seiche.facts.regime.value)];
    }
    var limits := CollectLimits(r.order, e.undertow.facts, p);
    var enforced := r.mode != Observe;
    if unavailable != [] {
      d := Decision(Unavailable, enforced, unavailable + holds + limits, ConstraintsOf(p), false);
    } else if holds != [] {
      d := Decision(Hold, enforced, holds + limits, ConstraintsOf(p), false);
    } else if limits != [] {
      d := Decision(Limit, enforced, limits, ConstraintsOf(p), true);
    } else {
      d := Decision(Pass, enforced, [PolicySatisfied], ConstraintsOf(p), false);
    }
  }
}
