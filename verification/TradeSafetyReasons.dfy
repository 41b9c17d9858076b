/**
 * Which reasons a decision gives, and in which order: every reason code with its own condition on the inputs, in one
 * catalogue, of which the decision reports exactly the entries that hold.
 */
module TradeSafetyReasons {
  import opened Basics
  import opened ReasonLists
  import opened TradeSafety

  /** What the evaluator is given. */
  datatype Inputs = Inputs(request: Request, evidence: Evidence, preview: Preview, policy: Policy, at: Instant,
                           authenticated: bool)
  {
    predicate Valid() {
      ValidEvidence(evidence) && ValidPreview(preview)
    }

    function Decision(): Decision
      requires Valid()
    {
      Decide(request, evidence, preview, policy, at, authenticated)
    }
  }

  /** A number the evidence states; nulls, and what is not there, state none. */
  predicate States(f: Fact, x: real) {
    f == Num(x) && x >= 0.0
  }

  predicate StatesSome(f: Fact) {
    f.Num? && f.value >= 0.0
  }

  /** Further away than a cent, and than a billionth of the size it is compared with. */
  predicate FarFrom(x: real, size: real) {
    (x - size > 0.01 || size - x > 0.01) && (x - size > size / 1_000_000_000.0 || size - x > size / 1_000_000_000.0)
  }

  predicate Asked(p: Product, x: Inputs) {
    p in x.policy.requiredProducts && (x.evidence.Of(p).state == Eligible || x.evidence.Of(p).state == ContextOnly)
  }

  /** The condition of each reason code. */
  ghost predicate Holds(reason: Reason, x: Inputs) {
    var r, e, b, p, facts := x.request, x.evidence, x.preview, x.policy, x.evidence.undertow.facts;
    match reason
    case EvidenceUnusable(q, state) =>
      q in p.requiredProducts && e.Of(q).state == state && (state == Missing || state == NotApplicable)
    case RightsNotUsable(q) =>
      Asked(q, x) && (e.Of(q).rights == Restricted || e.Of(q).rights == UnknownRights || e.Of(q).rights == Blocked)
    case NotYetKnown(q) => Asked(q, x) && e.Of(q).knowledgeTime.Some? && x.at < e.Of(q).knowledgeTime.value
    case NotYetRetrieved(q) => Asked(q, x) && x.at < e.Of(q).retrievedAt
    case Expired(q) => Asked(q, x) && e.Of(q).expiresAt.Some? && e.Of(q).expiresAt.value <= x.at
    case TooOld(q) => Asked(q, x) && e.Of(q).asOf.Some? && x.at > e.Of(q).asOf.value + 1_000_000 * p.maxAgeSeconds.Of(q)
    case NotRealMoney(q) => Asked(q, x) && r.mode == Live && !e.Of(q).realMoneyEligible
    case LiveAuthenticationMissing => r.mode == Live && !x.authenticated
    case ExecutableQuoteUnavailable => r.mode == Live && p.liveRequiresQuote && !e.undertow.executableQuote
    case PreviewUnavailable => r.mode == Live && p.liveRequiresPreview && b.state != Verified
    case PreviewNotYetRetrieved => r.mode == Live && b.state == Verified && x.at < b.retrievedAt
    case PreviewExpired => r.mode == Live && b.state == Verified && b.expiresAt.Some? && b.expiresAt.value <= x.at
    case RegimeHeld(regime) => e.seiche.facts.regime == Some(regime) && regime in p.holdRegimes
    case UsdPolicyRequiresUsd =>
      r.order.currency != "USD" && (p.maxNotional.Some? || p.maxExitCost.Some? || p.maxVenueSpread.Some?)
    case OrderSizeMismatch =>
      r.order.currency == "USD" && exists size :: States(facts.requestedSize, size) && FarFrom(size, r.order.notional)
    case PublishedRungMismatch =>
      exists size, rung :: States(facts.requestedSize, size) && States(facts.publishedRung, rung) && FarFrom(rung, size)
    case ExitCostMissing => p.maxExitCost.Some? && !StatesSome(facts.worstSellCost)
    case VenueSpreadMissing => p.maxVenueSpread.Some? && !StatesSome(facts.venueSpread)
    case MaxNotionalExceeded => r.order.currency == "USD" && p.maxNotional.Some? && r.order.notional > p.maxNotional.value
    case ExitCostExceeded =>
      p.maxExitCost.Some? && exists cost :: States(facts.worstSellCost, cost) && cost > p.maxExitCost.value
    case VenueSpreadExceeded =>
      p.maxVenueSpread.Some? && exists spread :: States(facts.venueSpread, spread) && spread > p.maxVenueSpread.value
    case PolicySatisfied => false
  }

  // ----- the catalogue, in the order in which reasons are reported -----

  function ProductCatalogue(q: Product, state: EvidenceState): seq<Reason> {
    [EvidenceUnusable(q, state)] + [RightsNotUsable(q)] + [NotYetKnown(q)] + [NotYetRetrieved(q)] + [Expired(q)] + [TooOld(q)]
    + [NotRealMoney(q)]
  }

  function EvidenceCatalogue(products: seq<Product>, e: Evidence): seq<Reason> {
    if products == [] then []
    else
      var q := products[|products| - 1];
      EvidenceCatalogue(products[..|products| - 1], e) + ProductCatalogue(q, e.Of(q).state)
  }

  const LIVE_CATALOGUE := [LiveAuthenticationMissing] + [ExecutableQuoteUnavailable] + [PreviewUnavailable]
                          + [PreviewNotYetRetrieved] + [PreviewExpired]

  const USD_CATALOGUE := [UsdPolicyRequiresUsd] + [OrderSizeMismatch] + [PublishedRungMismatch] + [ExitCostMissing]
                         + [VenueSpreadMissing]

  const LIMIT_CATALOGUE := [MaxNotionalExceeded] + [ExitCostExceeded] + [VenueSpreadExceeded]

  function UnavailableCatalogue(x: Inputs): seq<Reason> {
    EvidenceCatalogue(x.policy.requiredProducts, x.evidence) + LIVE_CATALOGUE + USD_CATALOGUE
  }

  function RegimeCatalogue(e: Evidence): seq<Reason> {
    if e.seiche.facts.regime.Some? then [RegimeHeld(e.seiche.facts.regime.value)] else []
  }

  function Catalogue(x: Inputs): seq<Reason> {
    UnavailableCatalogue(x) + RegimeCatalogue(x.evidence) + LIMIT_CATALOGUE
  }

  /** Being a reason that holds. */
  ghost function Test(x: Inputs): Reason -> bool {
    (reason: Reason) => Holds(reason, x)
  }

  /** The entries that hold, in their order. */
  ghost function Select(reasons: seq<Reason>, x: Inputs): seq<Reason> {
    Kept(reasons, Test(x))
  }

  // ----- the evaluator's own lists are what the catalogue selects -----

  lemma FarMeansApart(x: real, size: real)
    ensures FarFrom(x, size) <==> Abs(x - size) > Tolerance(size)
  {
    assert size * 0.000000001 == size / 1_000_000_000.0;
  }

  lemma StatedNumber(f: Fact)
    ensures FactNumber(f).Some? <==> StatesSome(f)
    ensures forall n :: States(f, n) <==> FactNumber(f) == Some(n)
  {
  }

  lemma ProductConditions(q: Product, x: Inputs)
    requires x.Valid() && q in x.policy.requiredProducts
    ensures ValidSection(q, x.evidence.Of(q))
    ensures var s, maxAge := x.evidence.Of(q), x.policy.maxAgeSeconds.Of(q);
            && (Holds(EvidenceUnusable(q, s.state), x) <==> !Usable(s.state))
            && (Holds(RightsNotUsable(q), x) <==> Usable(s.state) && UnsafeRights(s.rights))
            && (Usable(s.state) ==>
                  && (Holds(NotYetKnown(q), x) <==> x.at < s.knowledgeTime.value)
                  && (Holds(NotYetRetrieved(q), x) <==> x.at < s.retrievedAt)
                  && (Holds(Expired(q), x) <==> s.expiresAt.value <= x.at)
                  && (Holds(TooOld(q), x) <==> x.at - s.asOf.value > maxAge * SECOND)
                  && (Holds(NotRealMoney(q), x) <==> x.request.mode == Live && !s.realMoneyEligible))
            && (!Usable(s.state) ==>
                  && !Holds(NotYetKnown(q), x) && !Holds(NotYetRetrieved(q), x) && !Holds(Expired(q), x)
                  && !Holds(TooOld(q), x) && !Holds(NotRealMoney(q), x))
  {
  }

  lemma ProductSelection(q: Product, x: Inputs)
    requires x.Valid() && q in x.policy.requiredProducts
    ensures ValidSection(q, x.evidence.Of(q))
    ensures Select(ProductCatalogue(q, x.evidence.Of(q).state), x)
            == ProductReasons(q, x.evidence.Of(q), x.policy.maxAgeSeconds.Of(q), x.request.mode, x.at)
  {
    var state := x.evidence.Of(q).state;
    ProductConditions(q, x);
    KeptOfSeven(EvidenceUnusable(q, state), RightsNotUsable(q), NotYetKnown(q), NotYetRetrieved(q), Expired(q), TooOld(q),
                NotRealMoney(q), Test(x));
    EmptyFirst(When(Holds(RightsNotUsable(q), x), RightsNotUsable(q)));
  }

  lemma EmptyFirst(xs: seq<Reason>)
    ensures [] + xs == xs
  {
  }

  lemma {:induction false} EvidenceSelection(products: seq<Product>, x: Inputs)
    requires x.Valid() && forall q :: q in products ==> q in x.policy.requiredProducts
    ensures Select(EvidenceCatalogue(products, x.evidence), x)
            == EvidenceReasons(products, x.evidence, x.policy.maxAgeSeconds, x.request.mode, x.at)
    decreases |products|
  {
    if products != [] {
      var n := |products| - 1;
      assert products[n] in products;
      EvidenceSelection(products[..n], x);
      ProductSelection(products[n], x);
      KeptBoth(EvidenceCatalogue(products[..n], x.evidence), ProductCatalogue(products[n], x.evidence.Of(products[n]).state), Test(x));
    }
  }

  lemma LiveConditions(x: Inputs)
    requires x.Valid()
    ensures var live, b, p := x.request.mode == Live, x.preview, x.policy;
            && (Holds(LiveAuthenticationMissing, x) <==> live && !x.authenticated)
            && (Holds(ExecutableQuoteUnavailable, x) <==> live && p.liveRequiresQuote && !x.evidence.undertow.executableQuote)
            && (Holds(PreviewUnavailable, x) <==> live && p.liveRequiresPreview && b.state != Verified)
            && (Holds(PreviewNotYetRetrieved, x) <==> live && b.state == Verified && x.at < b.retrievedAt)
            && (Holds(PreviewExpired, x) <==> live && b.state == Verified && b.expiresAt.value <= x.at)
  {
  }

  lemma LiveSelection(x: Inputs)
    requires x.Valid()
    ensures Select(LIVE_CATALOGUE, x)
            == if x.request.mode == Live then LiveReasons(x.evidence, x.preview, x.policy, x.at, x.authenticated) else []
  {
    LiveConditions(x);
    KeptOfFive(LiveAuthenticationMissing, ExecutableQuoteUnavailable, PreviewUnavailable, PreviewNotYetRetrieved, PreviewExpired, Test(x));
  }

  lemma SizeConditions(x: Inputs)
    ensures var order, facts := x.request.order, x.evidence.undertow.facts;
            && (Holds(OrderSizeMismatch, x) <==> order.currency == "USD" && Apart(FactNumber(facts.requestedSize), order.notional))
            && (Holds(PublishedRungMismatch, x) <==> OffRung(facts))
  {
    var order, facts := x.request.order, x.evidence.undertow.facts;
    StatedNumber(facts.requestedSize);
    StatedNumber(facts.publishedRung);
    if FactNumber(facts.requestedSize).Some? {
      var size := FactNumber(facts.requestedSize).value;
      FarMeansApart(size, order.notional);
      assert States(facts.requestedSize, size);
      if FactNumber(facts.publishedRung).Some? {
        FarMeansApart(FactNumber(facts.publishedRung).value, size);
        assert States(facts.publishedRung, FactNumber(facts.publishedRung).value);
      }
    }
  }

  lemma UsdConditions(x: Inputs)
    ensures var order, facts, p := x.request.order, x.evidence.undertow.facts, x.policy;
            && (Holds(UsdPolicyRequiresUsd, x) <==> order.currency != "USD" && Capped(p))
            && (Holds(ExitCostMissing, x) <==> p.maxExitCost.Some? && FactNumber(facts.worstSellCost).None?)
            && (Holds(VenueSpreadMissing, x) <==> p.maxVenueSpread.Some? && FactNumber(facts.venueSpread).None?)
  {
    StatedNumber(x.evidence.undertow.facts.worstSellCost);
    StatedNumber(x.evidence.undertow.facts.venueSpread);
  }

  lemma UsdSelection(x: Inputs)
    requires x.Valid()
    ensures Select(USD_CATALOGUE, x) == UsdReasons(x.request.order, x.evidence.undertow.facts, x.policy)
  {
    UsdConditions(x);
    SizeConditions(x);
    KeptOfFive(UsdPolicyRequiresUsd, OrderSizeMismatch, PublishedRungMismatch, ExitCostMissing, VenueSpreadMissing, Test(x));
  }

  lemma LimitConditions(x: Inputs)
    requires x.Valid()
    ensures var order, facts, p := x.request.order, x.evidence.undertow.facts, x.policy;
            && (Holds(MaxNotionalExceeded, x) <==> order.currency == "USD" && Exceeds(Some(order.notional), p.maxNotional))
            && (Holds(ExitCostExceeded, x) <==> Exceeds(FactNumber(facts.worstSellCost), p.maxExitCost))
            && (Holds(VenueSpreadExceeded, x) <==> Exceeds(FactNumber(facts.venueSpread), p.maxVenueSpread))
  {
    var facts := x.evidence.undertow.facts;
    StatedNumber(facts.worstSellCost);
    StatedNumber(facts.venueSpread);
    if FactNumber(facts.worstSellCost).Some? {
      assert States(facts.worstSellCost, FactNumber(facts.worstSellCost).value);
    }
    if FactNumber(facts.venueSpread).Some? {
      assert States(facts.venueSpread, FactNumber(facts.venueSpread).value);
    }
  }

  lemma LimitSelection(x: Inputs)
    requires x.Valid()
    ensures Select(LIMIT_CATALOGUE, x) == LimitReasons(x.request.order, x.evidence.undertow.facts, x.policy)
  {
    LimitConditions(x);
    KeptOfThree(MaxNotionalExceeded, ExitCostExceeded, VenueSpreadExceeded, Test(x));
  }

  lemma RegimeSelection(x: Inputs)
    requires x.Valid()
    ensures Select(RegimeCatalogue(x.evidence), x) == HoldReasons(x.evidence, x.policy)
  {
    if x.evidence.seiche.facts.regime.Some? {
      var held := RegimeHeld(x.evidence.seiche.facts.regime.value);
      KeptMore([], held, Test(x));
      assert [] + [held] == [held];
    }
  }

  lemma UnavailableSelection(x: Inputs)
    requires x.Valid()
    ensures Select(UnavailableCatalogue(x), x)
            == UnavailableReasons(x.request, x.evidence, x.preview, x.policy, x.at, x.authenticated)
  {
    var evidence := EvidenceCatalogue(x.policy.requiredProducts, x.evidence);
    EvidenceSelection(x.policy.requiredProducts, x);
    LiveSelection(x);
    UsdSelection(x);
    KeptBoth(evidence, LIVE_CATALOGUE, Test(x));
    KeptBoth(evidence + LIVE_CATALOGUE, USD_CATALOGUE, Test(x));
  }

  // ----- the decision -----

  /** A decision reports exactly the entries of the catalogue that hold, in its order, or that the policy is satisfied. */
  lemma ReasonsAreTheCatalogue(x: Inputs)
    requires x.Valid()
    ensures var held := Select(Catalogue(x), x);
            x.Decision().reasons == if held == [] then [PolicySatisfied] else held
  {
    UnavailableSelection(x);
    RegimeSelection(x);
    LimitSelection(x);
    KeptBoth(UnavailableCatalogue(x), RegimeCatalogue(x.evidence), Test(x));
    KeptBoth(UnavailableCatalogue(x) + RegimeCatalogue(x.evidence), LIMIT_CATALOGUE, Test(x));
    ListsInTurn(UnavailableReasons(x.request, x.evidence, x.preview, x.policy, x.at, x.authenticated), HoldReasons(x.evidence, x.policy),
                LimitReasons(x.request.order, x.evidence.undertow.facts, x.policy), x.request.mode != Observe, x.policy);
  }

  lemma ListsInTurn(unavailable: seq<Reason>, holds: seq<Reason>, limits: seq<Reason>, enforced: bool, p: Policy)
    ensures var all := unavailable + holds + limits;
            Verdict(unavailable, holds, limits, enforced, p).reasons == if all == [] then [PolicySatisfied] else all
  {
    if unavailable == [] {
      assert unavailable + holds + limits == holds + limits;
      if holds == [] {
        assert holds + limits == limits;
      }
    }
  }

  lemma {:induction false} CataloguedProduct(q: Product, products: seq<Product>, e: Evidence, reason: Reason)
    requires q in products && reason in ProductCatalogue(q, e.Of(q).state)
    ensures reason in EvidenceCatalogue(products, e)
    decreases |products|
  {
    var n := |products| - 1;
    assert products == products[..n] + [products[n]];
    if q != products[n] {
      CataloguedProduct(q, products[..n], e, reason);
    }
  }

  predicate IsLimit(reason: Reason) {
    reason == MaxNotionalExceeded || reason == ExitCostExceeded || reason == VenueSpreadExceeded
  }

  /** The reasons for which a verdict is unavailable; regimes hold an order, and limits limit it. */
  predicate Blocks(reason: Reason) {
    !reason.RegimeHeld? && !IsLimit(reason) && reason != PolicySatisfied
  }

  /** Whatever holds is in the catalogue, in the part for its kind. */
  lemma HoldingIsCatalogued(reason: Reason, x: Inputs)
    requires Holds(reason, x)
    ensures Blocks(reason) ==> reason in UnavailableCatalogue(x)
    ensures reason.RegimeHeld? ==> reason in RegimeCatalogue(x.evidence)
    ensures IsLimit(reason) ==> reason in LIMIT_CATALOGUE
    ensures reason in Catalogue(x)
  {
    var products, e := x.policy.requiredProducts, x.evidence;
    match reason
    case EvidenceUnusable(q, _) => CataloguedProduct(q, products, e, reason);
    case RightsNotUsable(q) => CataloguedProduct(q, products, e, reason);
    case NotYetKnown(q) => CataloguedProduct(q, products, e, reason);
    case NotYetRetrieved(q) => CataloguedProduct(q, products, e, reason);
    case Expired(q) => CataloguedProduct(q, products, e, reason);
    case TooOld(q) => CataloguedProduct(q, products, e, reason);
    case NotRealMoney(q) => CataloguedProduct(q, products, e, reason);
    case RegimeHeld(_) =>
    case PolicySatisfied => assert false;
    case _ => assert reason in LIVE_CATALOGUE || reason in USD_CATALOGUE || reason in LIMIT_CATALOGUE;
  }

  lemma SelectedIsWhatHolds(reason: Reason, x: Inputs)
    requires x.Valid()
    ensures reason in Select(Catalogue(x), x) <==> Holds(reason, x)
  {
    KeptExactlyWhen(reason, Catalogue(x), Test(x));
    if Holds(reason, x) {
      HoldingIsCatalogued(reason, x);
    }
  }

  ghost predicate NothingHolds(x: Inputs) {
    forall reason :: !Holds(reason, x)
  }

  lemma NothingSelected(held: seq<Reason>, x: Inputs)
    requires x.Valid() && held == Select(Catalogue(x), x)
    ensures held == [] <==> NothingHolds(x)
  {
    if held == [] {
      forall reason ensures !Holds(reason, x) {
        SelectedIsWhatHolds(reason, x);
      }
    } else {
      SelectedIsWhatHolds(held[0], x);
    }
  }

  lemma PolicySatisfiedIsNoCondition(x: Inputs)
    ensures !Holds(PolicySatisfied, x)
  {
  }

  lemma ListedExactlyWhen(reasons: seq<Reason>, reason: Reason, x: Inputs)
    requires x.Valid() && reasons == if Select(Catalogue(x), x) == [] then [PolicySatisfied] else Select(Catalogue(x), x)
    ensures reason in reasons <==> Holds(reason, x) || (reason == PolicySatisfied && NothingHolds(x))
  {
    SelectedIsWhatHolds(reason, x);
    NothingSelected(Select(Catalogue(x), x), x);
    PolicySatisfiedIsNoCondition(x);
  }

  /** Every reason code is reported exactly when its own condition holds, and the last one when no other does. */
  lemma ReportedExactlyWhen(reason: Reason, x: Inputs)
    requires x.Valid()
    ensures reason in x.Decision().reasons <==> Holds(reason, x) || (reason == PolicySatisfied && NothingHolds(x))
  {
    ReasonsAreTheCatalogue(x);
    ListedExactlyWhen(x.Decision().reasons, reason, x);
  }

  lemma {:induction false} EvidenceBlocks(reason: Reason, products: seq<Product>, e: Evidence)
    requires reason in EvidenceCatalogue(products, e)
    ensures Blocks(reason)
    decreases |products|
  {
    var n := |products| - 1;
    if reason in EvidenceCatalogue(products[..n], e) {
      EvidenceBlocks(reason, products[..n], e);
    }
  }

  ghost predicate SomethingBlocks(x: Inputs) {
    exists reason :: Blocks(reason) && Holds(reason, x)
  }

  ghost predicate SomethingLimits(x: Inputs) {
    exists reason :: IsLimit(reason) && Holds(reason, x)
  }

  ghost predicate RegimeHolds(x: Inputs) {
    exists regime :: Holds(RegimeHeld(regime), x)
  }

  lemma ListsExactlyWhen(x: Inputs)
    requires x.Valid()
    ensures Select(UnavailableCatalogue(x), x) != [] <==> SomethingBlocks(x)
    ensures Select(RegimeCatalogue(x.evidence), x) != [] <==> RegimeHolds(x)
    ensures Select(LIMIT_CATALOGUE, x) != [] <==> SomethingLimits(x)
  {
    BlockingExactlyWhen(x);
    RegimeExactlyWhen(x);
    LimitingExactlyWhen(x);
  }

  lemma BlockingExactlyWhen(x: Inputs)
    ensures Select(UnavailableCatalogue(x), x) != [] <==> SomethingBlocks(x)
  {
    var list := Select(UnavailableCatalogue(x), x);
    if list != [] {
      KeptExactlyWhen(list[0], UnavailableCatalogue(x), Test(x));
      if list[0] in EvidenceCatalogue(x.policy.requiredProducts, x.evidence) {
        EvidenceBlocks(list[0], x.policy.requiredProducts, x.evidence);
      }
      assert Blocks(list[0]) && Holds(list[0], x);
    }
    forall reason | Blocks(reason) && Holds(reason, x) ensures reason in list {
      HoldingIsCatalogued(reason, x);
      KeptExactlyWhen(reason, UnavailableCatalogue(x), Test(x));
    }
  }

  lemma RegimeExactlyWhen(x: Inputs)
    ensures Select(RegimeCatalogue(x.evidence), x) != [] <==> RegimeHolds(x)
  {
    var list := Select(RegimeCatalogue(x.evidence), x);
    if list != [] {
      KeptExactlyWhen(list[0], RegimeCatalogue(x.evidence), Test(x));
      assert Holds(RegimeHeld(list[0].regime), x);
    }
    forall regime | Holds(RegimeHeld(regime), x) ensures RegimeHeld(regime) in list {
      KeptExactlyWhen(RegimeHeld(regime), RegimeCatalogue(x.evidence), Test(x));
    }
  }

  lemma LimitingExactlyWhen(x: Inputs)
    ensures Select(LIMIT_CATALOGUE, x) != [] <==> SomethingLimits(x)
  {
    var list := Select(LIMIT_CATALOGUE, x);
    if list != [] {
      KeptExactlyWhen(list[0], LIMIT_CATALOGUE, Test(x));
      assert IsLimit(list[0]) && Holds(list[0], x);
    }
    forall reason | IsLimit(reason) && Holds(reason, x) ensures reason in list {
      HoldingIsCatalogued(reason, x);
      KeptExactlyWhen(reason, LIMIT_CATALOGUE, Test(x));
    }
  }

  /**
   * The outcome is that of the gravest kind of reason that holds; the decision is enforced unless the request only
   * observes, repeats the policy's caps without ever resizing, and asks for another order exactly at a limit.
   */
  lemma OutcomeExactlyWhen(x: Inputs)
    requires x.Valid()
    ensures var d := x.Decision();
            && (d.outcome == Unavailable <==> SomethingBlocks(x))
            && (d.outcome == Hold <==> !SomethingBlocks(x) && RegimeHolds(x))
            && (d.outcome == Limit <==> !SomethingBlocks(x) && !RegimeHolds(x) && SomethingLimits(x))
            && (d.outcome == Pass <==> !SomethingBlocks(x) && !RegimeHolds(x) && !SomethingLimits(x))
            && (d.enforced <==> x.request.mode != Observe) && (d.resubmitRequired <==> d.outcome == Limit)
            && d.constraints.requiredProducts == x.policy.requiredProducts && !d.constraints.autoResize
            && d.constraints.maxNotional == x.policy.maxNotional && d.constraints.maxExitCost == x.policy.maxExitCost
            && d.constraints.maxVenueSpread == x.policy.maxVenueSpread
  {
    UnavailableSelection(x);
    RegimeSelection(x);
    LimitSelection(x);
    ListsExactlyWhen(x);
  }
}
