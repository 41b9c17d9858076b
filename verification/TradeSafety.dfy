/**
 * Trade-safety receipts: the policy decision, the separately written expiry ceiling, and the issue and
 * verify paths that bind them.  Records start typed; text-shape checks are not part of this model.
 */
module TradeSafety {
  import opened Basics
  import opened ReasonLists

  datatype Product = Seiche | Undertow | LiquiLens

  datatype Mode = Observe | Paper | Live

  datatype EvidenceState = Eligible | ContextOnly | Missing | NotApplicable

  datatype Rights = Licensed | Allowed | MetadataOnly | Restricted | UnknownRights | Blocked

  datatype Regime = Calm | Erosion | Strain | Stress

  datatype Outcome = Pass | Limit | Hold | Unavailable

  /** A key of the facts object: not there, there but null, or a number. */
  datatype Fact = Absent | Null | Num(value: real)

  datatype Facts = Facts(regime: Option<Regime>, requestedSize: Fact, publishedRung: Fact,
                         worstSellCost: Fact, venueSpread: Fact, others: set<string>)

  datatype Section = Section(
    requestHash: string, state: EvidenceState, sourceSha: Option<string>,
    asOf: Option<Instant>, knowledgeTime: Option<Instant>, retrievedAt: Instant, expiresAt: Option<Instant>,
    rights: Rights, realMoneyEligible: bool, executableQuote: bool, facts: Facts)

  datatype Evidence = Evidence(seiche: Section, undertow: Section, liquilens: Section) {
    function Of(p: Product): Section {
      match p
      case Seiche => seiche
      case Undertow => undertow
      case LiquiLens => liquilens
    }
  }

  datatype Ages = Ages(seiche: int, undertow: int, liquilens: int) {
    function Of(p: Product): int {
      match p
      case Seiche => seiche
      case Undertow => undertow
      case LiquiLens => liquilens
    }
  }

  datatype Policy = Policy(
    policyId: string, version: string, requiredProducts: seq<Product>, maxAgeSeconds: Ages,
    holdRegimes: seq<Regime>, maxNotional: Option<real>, maxExitCost: Option<real>, maxVenueSpread: Option<real>,
    missingFailsClosed: bool, liveRequiresQuote: bool, liveRequiresPreview: bool, autoResize: bool)

  datatype Agent = Agent(agentId: string, operatorId: string, tenantId: string, accountId: string,
                         runtime: string, strategyId: Option<string>, scope: seq<string>)

  datatype Side = Buy | Sell

  datatype OrderType = Market | LimitOrder | StopOrder | StopLimit | OtherOrder

  datatype Order = Order(assetClass: string, symbol: string, identifiers: map<string, string>, side: Side,
                         orderType: OrderType, notional: real, currency: string, quantity: Option<real>,
                         limitPrice: Option<real>, stopPrice: Option<real>, venue: Option<string>, timeInForce: string)

  datatype Request = Request(requestId: string, createdAt: Instant, expiresAt: Instant, mode: Mode, agent: Agent,
                             order: Order, policyId: string, policyVersion: string)

  datatype PreviewState = Verified | NoPreview | PreviewNotApplicable

  datatype Preview = Preview(state: PreviewState, accountId: string, requestHash: string, previewId: Option<string>,
                             retrievedAt: Instant, expiresAt: Option<Instant>)

  datatype Reason =
    | EvidenceUnusable(product: Product, state: EvidenceState)
    | RightsNotUsable(product: Product)
    | NotYetKnown(product: Product)
    | NotYetRetrieved(product: Product)
    | Expired(product: Product)
    | TooOld(product: Product)
    | NotRealMoney(product: Product)
    | LiveAuthenticationMissing
    | ExecutableQuoteUnavailable
    | PreviewUnavailable
    | PreviewNotYetRetrieved
    | PreviewExpired
    | RegimeHeld(regime: Regime)
    | UsdPolicyRequiresUsd
    | MaxNotionalExceeded
    | OrderSizeMismatch
    | PublishedRungMismatch
    | ExitCostMissing
    | ExitCostExceeded
    | VenueSpreadMissing
    | VenueSpreadExceeded
    | PolicySatisfied

  datatype Constraints = Constraints(requiredProducts: seq<Product>, maxNotional: Option<real>, maxExitCost: Option<real>,
                                     maxVenueSpread: Option<real>, autoResize: bool)

  datatype Decision = Decision(outcome: Outcome, enforced: bool, reasons: seq<Reason>, constraints: Constraints,
                               resubmitRequired: bool)

  // ----- validated inputs -----

  predicate Usable(state: EvidenceState) {
    state in {Eligible, ContextOnly}
  }

  predicate UnsafeRights(rights: Rights) {
    rights in {Restricted, UnknownRights, Blocked}
  }

  predicate Positive(f: Fact) {
    f.Num? ==> f.value > 0.0
  }

  predicate Nonnegative(f: Fact) {
    f.Num? ==> f.value >= 0.0
  }

  predicate NoFacts(f: Facts) {
    f.regime.None? && f.requestedSize.Absent? && f.publishedRung.Absent? && f.worstSellCost.Absent?
    && f.venueSpread.Absent? && f.others == {}
  }

  predicate ValidSection(p: Product, s: Section) {
    && (s.asOf.Some? && s.knowledgeTime.Some? ==> s.asOf.value <= s.knowledgeTime.value)
    && (s.knowledgeTime.Some? ==> s.knowledgeTime.value <= s.retrievedAt)
    && (s.expiresAt.Some? ==> s.retrievedAt < s.expiresAt.value)
    && (match s.state
        case NotApplicable =>
          s.sourceSha.None? && s.asOf.None? && s.knowledgeTime.None? && s.expiresAt.None? && NoFacts(s.facts)
        case Missing => !s.realMoneyEligible && !s.executableQuote
        case _ => s.sourceSha.Some? && s.asOf.Some? && s.knowledgeTime.Some? && s.expiresAt.Some?)
    && (UnsafeRights(s.rights) ==> s.state != Eligible)
    && (s.executableQuote ==> p == Undertow && s.realMoneyEligible)
    && (s.realMoneyEligible ==> s.state == Eligible && s.rights in {Allowed, Licensed})
    && (p == Seiche && Usable(s.state) ==> s.facts.regime.Some?)
    && (p == Undertow ==>
          && Positive(s.facts.requestedSize) && Positive(s.facts.publishedRung)
          && Nonnegative(s.facts.worstSellCost) && Nonnegative(s.facts.venueSpread)
          && (Usable(s.state) ==>
                && !s.facts.requestedSize.Absent? && !s.facts.publishedRung.Absent?
                && !s.facts.worstSellCost.Absent? && !s.facts.venueSpread.Absent?))
  }

  predicate ValidEvidence(e: Evidence) {
    ValidSection(Seiche, e.seiche) && ValidSection(Undertow, e.undertow) && ValidSection(LiquiLens, e.liquilens)
  }

  predicate ValidCap(cap: Option<real>) {
    cap.Some? ==> cap.value > 0.0
  }

  predicate ValidPolicy(p: Policy) {
    && Distinct(p.requiredProducts) && Seiche in p.requiredProducts && Undertow in p.requiredProducts
    && p.maxAgeSeconds.seiche > 0 && p.maxAgeSeconds.undertow > 0 && p.maxAgeSeconds.liquilens > 0
    && Distinct(p.holdRegimes)
    && ValidCap(p.maxNotional) && ValidCap(p.maxExitCost) && ValidCap(p.maxVenueSpread)
    && p.missingFailsClosed && p.liveRequiresQuote && p.liveRequiresPreview && !p.autoResize
  }

  predicate ValidRequest(r: Request) {
    && r.createdAt < r.expiresAt
    && (r.mode == Paper ==> "orders:paper" in r.agent.scope)
    && (r.mode == Live ==> "orders:live" in r.agent.scope)
    && Distinct(r.agent.scope)
    && r.order.notional > 0.0
    && ValidCap(r.order.quantity) && ValidCap(r.order.limitPrice) && ValidCap(r.order.stopPrice)
    && (r.order.limitPrice.Some? <==> r.order.orderType in {LimitOrder, StopLimit})
    && (r.order.stopPrice.Some? <==> r.order.orderType in {StopOrder, StopLimit})
  }

  predicate ValidPreview(b: Preview) {
    && (b.expiresAt.Some? ==> b.retrievedAt < b.expiresAt.value)
    && (b.state == Verified ==> b.previewId.Some? && b.expiresAt.Some?)
    && (b.state == PreviewNotApplicable ==> b.previewId.None? && b.expiresAt.None?)
  }

  /** What the evaluator reads: records that passed validation. */
  predicate ValidInputs(r: Request, e: Evidence, b: Preview, p: Policy) {
    ValidRequest(r) && ValidEvidence(e) && ValidPreview(b) && ValidPolicy(p)
  }

  // ----- the decision -----

  function ProductReasons(p: Product, s: Section, maxAge: int, mode: Mode, at: Instant): seq<Reason>
    requires ValidSection(p, s)
  {
    if !Usable(s.state) then [EvidenceUnusable(p, s.state)]
    else
      When(UnsafeRights(s.rights), RightsNotUsable(p))
      + When(at < s.knowledgeTime.value, NotYetKnown(p))
      + When(at < s.retrievedAt, NotYetRetrieved(p))
      + When(s.expiresAt.value <= at, Expired(p))
      + When(at - s.asOf.value > maxAge * SECOND, TooOld(p))
      + When(mode == Live && !s.realMoneyEligible, NotRealMoney(p))
  }

  function EvidenceReasons(products: seq<Product>, e: Evidence, ages: Ages, mode: Mode, at: Instant): seq<Reason>
    requires ValidEvidence(e)
  {
    if products == [] then []
    else
      var p := products[|products| - 1];
      EvidenceReasons(products[..|products| - 1], e, ages, mode, at) + ProductReasons(p, e.Of(p), ages.Of(p), mode, at)
  }

  function LiveReasons(e: Evidence, b: Preview, p: Policy, at: Instant, authenticated: bool): seq<Reason>
    requires ValidPreview(b)
  {
    When(!authenticated, LiveAuthenticationMissing)
    + When(p.liveRequiresQuote && !e.undertow.executableQuote, ExecutableQuoteUnavailable)
    + When(p.liveRequiresPreview && b.state != Verified, PreviewUnavailable)
    + When(b.state == Verified && at < b.retrievedAt, PreviewNotYetRetrieved)
    + When(b.state == Verified && b.expiresAt.value <= at, PreviewExpired)
  }

  function Abs(x: real): real {
    if x < 0.0 then -x else x
  }

  function Max(x: real, y: real): real {
    if x < y then y else x
  }

  function Tolerance(size: real): real {
    Max(0.01, size * 0.000000001)
  }

  /** The evaluator's own reading of a number: nulls and negative values count as missing. */
  function FactNumber(f: Fact): Option<real> {
    if f.Num? && f.value >= 0.0 then Some(f.value) else None
  }

  predicate Apart(x: Option<real>, y: real) {
    x.Some? && Abs(x.value - y) > Tolerance(y)
  }

  predicate OffRung(facts: Facts) {
    FactNumber(facts.requestedSize).Some?
    && Apart(FactNumber(facts.publishedRung), FactNumber(facts.requestedSize).value)
  }

  predicate Capped(p: Policy) {
    p.maxNotional.Some? || p.maxExitCost.Some? || p.maxVenueSpread.Some?
  }

  function SizeReasons(order: Order, facts: Facts, p: Policy): seq<Reason> {
    When(order.currency != "USD" && Capped(p), UsdPolicyRequiresUsd)
    + When(order.currency == "USD" && Apart(FactNumber(facts.requestedSize), order.notional), OrderSizeMismatch)
    + When(OffRung(facts), PublishedRungMismatch)
  }

  function UsdReasons(order: Order, facts: Facts, p: Policy): seq<Reason> {
    SizeReasons(order, facts, p)
    + When(p.maxExitCost.Some? && FactNumber(facts.worstSellCost).None?, ExitCostMissing)
    + When(p.maxVenueSpread.Some? && FactNumber(facts.venueSpread).None?, VenueSpreadMissing)
  }

  function Exceeds(number: Option<real>, cap: Option<real>): bool {
    number.Some? && cap.Some? && number.value > cap.value
  }

  function LimitReasons(order: Order, facts: Facts, p: Policy): seq<Reason> {
    When(order.currency == "USD" && Exceeds(Some(order.notional), p.maxNotional), MaxNotionalExceeded)
    + When(Exceeds(FactNumber(facts.worstSellCost), p.maxExitCost), ExitCostExceeded)
    + When(Exceeds(FactNumber(facts.venueSpread), p.maxVenueSpread), VenueSpreadExceeded)
  }

  function HoldReasons(e: Evidence, p: Policy): seq<Reason> {
    if e.seiche.facts.regime.Some? && e.seiche.facts.regime.value in p.holdRegimes
    then [RegimeHeld(e.seiche.facts.regime.value)] else []
  }

  function UnavailableReasons(r: Request, e: Evidence, b: Preview, p: Policy, at: Instant, authenticated: bool): seq<Reason>
    requires ValidEvidence(e) && ValidPreview(b)
  {
    EvidenceReasons(p.requiredProducts, e, p.maxAgeSeconds, r.mode, at)
    + (if r.mode == Live then LiveReasons(e, b, p, at, authenticated) else [])
    + UsdReasons(r.order, e.undertow.facts, p)
  }

  function ConstraintsOf(p: Policy): Constraints {
    Constraints(p.requiredProducts, p.maxNotional, p.maxExitCost, p.maxVenueSpread, false)
  }

  /** The first list with something in it decides, and is reported with the lists after it. */
  function Verdict(unavailable: seq<Reason>, holds: seq<Reason>, limits: seq<Reason>, enforced: bool, p: Policy): (d: Decision)
    ensures d.enforced == enforced
  {
    if unavailable != [] then Decision(Unavailable, enforced, unavailable + holds + limits, ConstraintsOf(p), false)
    else if holds != [] then Decision(Hold, enforced, holds + limits, ConstraintsOf(p), false)
    else if limits != [] then Decision(Limit, enforced, limits, ConstraintsOf(p), true)
    else Decision(Pass, enforced, [PolicySatisfied], ConstraintsOf(p), false)
  }

  function Decide(r: Request, e: Evidence, b: Preview, p: Policy, at: Instant, authenticated: bool): Decision
    requires ValidEvidence(e) && ValidPreview(b)
  {
    Verdict(UnavailableReasons(r, e, b, p, at, authenticated), HoldReasons(e, p),
            LimitReasons(r.order, e.undertow.facts, p), r.mode != Observe, p)
  }
}
