/** Server-owned limits on caller policies, and the order on policies that makes them mean something. */
module PolicyGuard {
  import opened Basics
  import opened TradeSafety
  import opened TradeSafetyLifetime

  // ----- the order on policies -----

  function Severity(outcome: Outcome): nat {
    match outcome
    case Pass => 0
    case Limit => 1
    case Hold => 2
    case Unavailable => 3
  }

  predicate CapTighter(mine: Option<real>, theirs: Option<real>) {
    theirs.Some? ==> mine.Some? && mine.value <= theirs.value
  }

  /** Everything `q` demands, `p` demands at least as strictly. */
  predicate Tighter(p: Policy, q: Policy) {
    && (forall x :: x in q.requiredProducts ==> x in p.requiredProducts && p.maxAgeSeconds.Of(x) <= q.maxAgeSeconds.Of(x))
    && (forall g :: g in q.holdRegimes ==> g in p.holdRegimes)
    && CapTighter(p.maxNotional, q.maxNotional) && CapTighter(p.maxExitCost, q.maxExitCost)
    && CapTighter(p.maxVenueSpread, q.maxVenueSpread)
    && (q.liveRequiresQuote ==> p.liveRequiresQuote) && (q.liveRequiresPreview ==> p.liveRequiresPreview)
  }

  lemma FitLoosens(x: Product, s: Section, maxAge: int, looser: int, mode: Mode, at: Instant)
    requires ValidSection(x, s) && maxAge <= looser && Fit(x, s, maxAge, mode, at)
    ensures Fit(x, s, looser, mode, at)
  {
  }

  /** Everything `q` needs before it can say anything but "unavailable", `p` needs as well. */
  predicate DemandsAtLeast(p: Policy, q: Policy) {
    && (forall x :: x in q.requiredProducts ==> x in p.requiredProducts && p.maxAgeSeconds.Of(x) <= q.maxAgeSeconds.Of(x))
    && (q.maxExitCost.Some? ==> p.maxExitCost.Some?) && (q.maxVenueSpread.Some? ==> p.maxVenueSpread.Some?)
    && (Capped(q) ==> Capped(p))
    && (q.liveRequiresQuote ==> p.liveRequiresQuote) && (q.liveRequiresPreview ==> p.liveRequiresPreview)
  }

  lemma ReadyLoosens(r: Request, e: Evidence, b: Preview, p: Policy, q: Policy, at: Instant, authenticated: bool)
    requires ValidEvidence(e) && ValidPreview(b) && DemandsAtLeast(p, q) && Ready(r, e, b, p, at, authenticated)
    ensures Ready(r, e, b, q, at, authenticated)
  {
    forall x | x in q.requiredProducts ensures FitIn(x, e, q.maxAgeSeconds, r.mode, at) {
      assert FitIn(x, e, p.maxAgeSeconds, r.mode, at);
      FitLoosens(x, e.Of(x), p.maxAgeSeconds.Of(x), q.maxAgeSeconds.Of(x), r.mode, at);
    }
  }

  /** Tightening a policy never improves an outcome, whatever the order, the evidence and the clock. */
  lemma TighterIsNeverBetter(r: Request, e: Evidence, b: Preview, p: Policy, q: Policy, at: Instant, authenticated: bool)
    requires ValidEvidence(e) && ValidPreview(b) && Tighter(p, q)
    ensures Severity(Decide(r, e, b, p, at, authenticated).outcome) >= Severity(Decide(r, e, b, q, at, authenticated).outcome)
  {
    OutcomeMeaning(r, e, b, p, at, authenticated);
    OutcomeMeaning(r, e, b, q, at, authenticated);
    if Ready(r, e, b, p, at, authenticated) {
      ReadyLoosens(r, e, b, p, q, at, authenticated);
    }
  }

  /** Everything a decision depends on besides the policy. */
  datatype Case = Case(request: Request, evidence: Evidence, preview: Preview, at: Instant, authenticated: bool)

  predicate ValidCase(c: Case) {
    ValidRequest(c.request) && ValidEvidence(c.evidence) && ValidPreview(c.preview)
  }

  function SeverityOf(c: Case, p: Policy): nat
    requires ValidCase(c)
  {
    Severity(Decide(c.request, c.evidence, c.preview, p, c.at, c.authenticated).outcome)
  }

  ghost predicate NeverBetter(p: Policy, q: Policy) {
    forall c | ValidCase(c) :: SeverityOf(c, p) >= SeverityOf(c, q)
  }

  predicate HoldsEvery(p: Policy) {
    Calm in p.holdRegimes && Erosion in p.holdRegimes && Strain in p.holdRegimes && Stress in p.holdRegimes
  }

  lemma HoldsEveryHolds(p: Policy, g: Regime)
    requires HoldsEvery(p)
    ensures g in p.holdRegimes
  {
    match g
    case Calm =>
    case Erosion =>
    case Strain =>
    case Stress =>
  }

  // ----- one order that tells any two policies apart -----

  /** The largest cost `p` lets through, and no number at all where `p` asks for none. */
  function Cost(cap: Option<real>): Fact {
    if cap.Some? then Num(cap.value) else Null
  }

  /** The largest size `p` lets through, or one that `q` stops. */
  function Size(mine: Option<real>, theirs: Option<real>): real {
    if mine.Some? then mine.value else if theirs.Some? then theirs.value + 1.0 else 1.0
  }

  function WitnessFacts(p: Policy, g: Regime): Facts {
    Facts(Some(g), Null, Null, Cost(p.maxExitCost), Cost(p.maxVenueSpread), {})
  }

  /** Evidence as old as `p` allows at time zero, and missing wherever `p` does not ask for it. */
  function WitnessSection(p: Policy, g: Regime, x: Product): Section {
    if x in p.requiredProducts then
      Section("", Eligible, Some(""), Some(-p.maxAgeSeconds.Of(x) * SECOND), Some(0), 0, Some(1), Allowed, false, false,
              WitnessFacts(p, g))
    else
      Section("", Missing, None, None, None, 0, None, Allowed, false, false, Facts(None, Absent, Absent, Absent, Absent, {}))
  }

  function WitnessEvidence(p: Policy, g: Regime): Evidence {
    Evidence(WitnessSection(p, g, Seiche), WitnessSection(p, g, Undertow), WitnessSection(p, g, LiquiLens))
  }

  /** In dollars only if `p` needs dollars. */
  function WitnessRequest(p: Policy, q: Policy): Request {
    Request("", -1, 1, Observe, Agent("", "", "", "", "", None, []),
            Order("", "", map[], Sell, Market, Size(p.maxNotional, q.maxNotional), if Capped(p) then "USD" else "EUR",
                  None, None, None, None, ""),
            p.policyId, p.version)
  }

  const NO_PREVIEW := Preview(PreviewNotApplicable, "", "", None, 0, None)

  lemma WitnessIsValid(p: Policy, q: Policy, g: Regime)
    requires ValidPolicy(p) && ValidPolicy(q)
    ensures ValidRequest(WitnessRequest(p, q)) && ValidEvidence(WitnessEvidence(p, g)) && ValidPreview(NO_PREVIEW)
  {
    assert SECOND > 0;
  }

  function Witness(p: Policy, q: Policy, g: Regime): Case {
    Case(WitnessRequest(p, q), WitnessEvidence(p, g), NO_PREVIEW, 0, false)
  }

  lemma WitnessSectionIsAt(p: Policy, g: Regime, x: Product)
    ensures WitnessEvidence(p, g).Of(x) == WitnessSection(p, g, x)
  {
  }

  lemma WitnessFits(p: Policy, q: Policy, g: Regime)
    requires ValidPolicy(p) && ValidCase(Witness(p, q, g))
    ensures AllFit(WitnessRequest(p, q), WitnessEvidence(p, g), p, 0)
  {
    var e := WitnessEvidence(p, g);
    forall x | x in p.requiredProducts ensures FitIn(x, e, p.maxAgeSeconds, Observe, 0) {
      WitnessSectionIsAt(p, g, x);
    }
  }

  lemma WitnessIsComparable(p: Policy, q: Policy, g: Regime)
    requires ValidPolicy(p) && ValidPolicy(q)
    ensures Comparable(WitnessRequest(p, q).order, WitnessEvidence(p, g).undertow.facts, p)
    ensures !OverLimit(WitnessRequest(p, q).order, WitnessEvidence(p, g).undertow.facts, p)
  {
    assert WitnessEvidence(p, g).undertow.facts == WitnessFacts(p, g);
  }

  /** `p` holds the witness if it holds its regime, and lets it pass otherwise. */
  lemma WitnessUnderPolicy(p: Policy, q: Policy, g: Regime)
    requires ValidPolicy(p) && ValidPolicy(q) && ValidCase(Witness(p, q, g))
    ensures SeverityOf(Witness(p, q, g), p) == if g in p.holdRegimes then 2 else 0
  {
    var r, e := WitnessRequest(p, q), WitnessEvidence(p, g);
    assert Ready(r, e, NO_PREVIEW, p, 0, false) by {
      WitnessFits(p, q, g);
      WitnessIsComparable(p, q, g);
    }
    assert !OverLimit(r.order, e.undertow.facts, p) by {
      WitnessIsComparable(p, q, g);
    }
    assert Held(e, p) <==> g in p.holdRegimes;
    OutcomeMeaning(r, e, NO_PREVIEW, p, 0, false);
  }

  lemma WitnessAsksForEvidence(p: Policy, q: Policy, g: Regime)
    requires ValidPolicy(p) && ValidPolicy(q) && ValidCase(Witness(p, q, g))
    requires AllFit(WitnessRequest(p, q), WitnessEvidence(p, g), q, 0)
    ensures forall x :: x in q.requiredProducts ==> x in p.requiredProducts && p.maxAgeSeconds.Of(x) <= q.maxAgeSeconds.Of(x)
  {
    forall x | x in q.requiredProducts
      ensures x in p.requiredProducts && p.maxAgeSeconds.Of(x) <= q.maxAgeSeconds.Of(x)
    {
      WitnessSectionIsAt(p, g, x);
      assert FitIn(x, WitnessEvidence(p, g), q.maxAgeSeconds, Observe, 0);
    }
  }

  /** If `q` is ready for the witness too, it demands nothing that `p` does not. */
  lemma WitnessSeparatesDemands(p: Policy, q: Policy, g: Regime)
    requires ValidPolicy(p) && ValidPolicy(q) && ValidCase(Witness(p, q, g))
    requires Ready(WitnessRequest(p, q), WitnessEvidence(p, g), NO_PREVIEW, q, 0, false)
    ensures DemandsAtLeast(p, q)
  {
    WitnessAsksForEvidence(p, q, g);
    assert WitnessEvidence(p, g).undertow.facts == WitnessFacts(p, g);
    assert Comparable(WitnessRequest(p, q).order, WitnessFacts(p, g), q);
  }

  /** If `q` lets the witness pass, its caps are no tighter either. */
  lemma WitnessSeparatesCaps(p: Policy, q: Policy, g: Regime)
    requires ValidPolicy(p) && ValidPolicy(q) && DemandsAtLeast(p, q)
    requires !OverLimit(WitnessRequest(p, q).order, WitnessFacts(p, g), q)
    ensures CapTighter(p.maxNotional, q.maxNotional) && CapTighter(p.maxExitCost, q.maxExitCost)
            && CapTighter(p.maxVenueSpread, q.maxVenueSpread)
  {
  }

  lemma NeverBetterAt(p: Policy, q: Policy, c: Case)
    requires NeverBetter(p, q) && ValidCase(c)
    ensures SeverityOf(c, p) >= SeverityOf(c, q)
  {
  }

  /** The witness is not unavailable under `p`, so it is not under a policy `p` never improves on. */
  lemma NeverBetterDemands(p: Policy, q: Policy, g: Regime)
    requires ValidPolicy(p) && ValidPolicy(q) && NeverBetter(p, q)
    ensures DemandsAtLeast(p, q)
  {
    var c := Witness(p, q, g);
    WitnessIsValid(p, q, g);
    WitnessUnderPolicy(p, q, g);
    NeverBetterAt(p, q, c);
    OutcomeMeaning(c.request, c.evidence, c.preview, q, c.at, c.authenticated);
    WitnessSeparatesDemands(p, q, g);
  }

  lemma NeverBetterForces(p: Policy, q: Policy, free: Regime)
    requires ValidPolicy(p) && ValidPolicy(q) && free !in p.holdRegimes && NeverBetter(p, q)
    ensures free !in q.holdRegimes
    ensures CapTighter(p.maxNotional, q.maxNotional) && CapTighter(p.maxExitCost, q.maxExitCost)
            && CapTighter(p.maxVenueSpread, q.maxVenueSpread)
  {
    var c := Witness(p, q, free);
    NeverBetterDemands(p, q, free);
    WitnessIsValid(p, q, free);
    WitnessUnderPolicy(p, q, free);
    NeverBetterAt(p, q, c);
    OutcomeMeaning(c.request, c.evidence, c.preview, q, c.at, c.authenticated);
    assert c.evidence.undertow.facts == WitnessFacts(p, free);
    WitnessSeparatesCaps(p, q, free);
  }

  lemma FreeRegimeForcesTighter(p: Policy, q: Policy, free: Regime)
    requires ValidPolicy(p) && ValidPolicy(q) && free !in p.holdRegimes && NeverBetter(p, q)
    ensures Tighter(p, q)
  {
    NeverBetterDemands(p, q, free);
    NeverBetterForces(p, q, free);
    forall g | g in q.holdRegimes ensures g in p.holdRegimes {
      if g !in p.holdRegimes {
        NeverBetterForces(p, q, g);
      }
    }
  }

  lemma TighterForcesNeverBetter(p: Policy, q: Policy)
    requires Tighter(p, q)
    ensures NeverBetter(p, q)
  {
    forall c | ValidCase(c) ensures SeverityOf(c, p) >= SeverityOf(c, q) {
      TighterIsNeverBetter(c.request, c.evidence, c.preview, p, q, c.at, c.authenticated);
    }
  }

  /** A policy that holds every regime lets nothing through: it is unavailable or it holds. */
  lemma HoldsEveryIsSevere(p: Policy, c: Case)
    requires ValidPolicy(p) && ValidCase(c) && HoldsEvery(p)
    ensures SeverityOf(c, p) == if Ready(c.request, c.evidence, c.preview, p, c.at, c.authenticated) then 2 else 3
  {
    OutcomeMeaning(c.request, c.evidence, c.preview, p, c.at, c.authenticated);
    if Ready(c.request, c.evidence, c.preview, p, c.at, c.authenticated) {
      assert FitIn(Seiche, c.evidence, p.maxAgeSeconds, c.request.mode, c.at);
      HoldsEveryHolds(p, c.evidence.seiche.facts.regime.value);
    }
  }

  lemma HoldsEveryIsNeverBetter(p: Policy, q: Policy)
    requires ValidPolicy(p) && HoldsEvery(p) && DemandsAtLeast(p, q)
    ensures NeverBetter(p, q)
  {
    forall c | ValidCase(c) ensures SeverityOf(c, p) >= SeverityOf(c, q) {
      HoldsEveryIsSevere(p, c);
      OutcomeMeaning(c.request, c.evidence, c.preview, q, c.at, c.authenticated);
      if Ready(c.request, c.evidence, c.preview, p, c.at, c.authenticated) {
        ReadyLoosens(c.request, c.evidence, c.preview, p, q, c.at, c.authenticated);
      }
    }
  }

  /** A regime that a policy does not hold. */
  function Unheld(p: Policy): (g: Regime)
    requires !HoldsEvery(p)
    ensures g !in p.holdRegimes
  {
    if Calm !in p.holdRegimes then Calm
    else if Erosion !in p.holdRegimes then Erosion
    else if Strain !in p.holdRegimes then Strain
    else Stress
  }

  /**
   * Exactly when a policy never gives a better outcome than another: it is tighter, or it holds every regime,
   * and then only what makes an order unavailable still matters.
   */
  lemma NeverBetterExactly(p: Policy, q: Policy)
    requires ValidPolicy(p) && ValidPolicy(q)
    ensures NeverBetter(p, q) <==> if HoldsEvery(p) then DemandsAtLeast(p, q) else Tighter(p, q)
  {
    if NeverBetter(p, q) {
      NeverBetterDemands(p, q, Calm);
      if !HoldsEvery(p) {
        FreeRegimeForcesTighter(p, q, Unheld(p));
      }
    }
    if HoldsEvery(p) && DemandsAtLeast(p, q) {
      HoldsEveryIsNeverBetter(p, q);
    }
    if Tighter(p, q) {
      TighterForcesNeverBetter(p, q);
    }
  }

  /** The same policy with one of its caps halved. */
  function Halved(p: Policy): (q: Policy)
    requires Capped(p)
  {
    if p.maxNotional.Some? then p.(maxNotional := Some(p.maxNotional.value / 2.0))
    else if p.maxExitCost.Some? then p.(maxExitCost := Some(p.maxExitCost.value / 2.0))
    else p.(maxVenueSpread := Some(p.maxVenueSpread.value / 2.0))
  }

  lemma HalvedIsNotLooser(p: Policy)
    requires ValidPolicy(p) && Capped(p)
    ensures ValidPolicy(Halved(p)) && DemandsAtLeast(p, Halved(p)) && !Tighter(p, Halved(p))
  {
  }

  ghost predicate OrderIsExactFor(p: Policy) {
    forall q | ValidPolicy(q) :: NeverBetter(p, q) <==> Tighter(p, q)
  }

  /**
   * "Tighter" is exactly "never a better outcome" for the policies that leave some regime unheld or cap nothing.
   * A policy that holds every regime and caps something never reaches its caps, so halving one changes nothing.
   */
  lemma TighterIsExact(p: Policy)
    requires ValidPolicy(p)
    ensures OrderIsExactFor(p) <==> !HoldsEvery(p) || !Capped(p)
  {
    if HoldsEvery(p) && Capped(p) {
      HalvedIsNotLooser(p);
      NeverBetterExactly(p, Halved(p));
      assert !OrderIsExactFor(p);
    } else {
      forall q | ValidPolicy(q) ensures NeverBetter(p, q) <==> Tighter(p, q) {
        NeverBetterExactly(p, q);
        if HoldsEvery(p) {
          assert DemandsAtLeast(p, q) <==> Tighter(p, q) by {
            UncappedDemands(p, q);
          }
        }
      }
    }
  }

  lemma UncappedDemands(p: Policy, q: Policy)
    requires HoldsEvery(p) && !Capped(p)
    ensures DemandsAtLeast(p, q) <==> Tighter(p, q)
  {
    forall g: Regime ensures g in p.holdRegimes {
      HoldsEveryHolds(p, g);
    }
  }

  // ----- the server's envelope -----

  datatype Config = Config(requiredProducts: seq<Product>, holdRegimes: seq<Regime>, maxAgeSeconds: Ages,
                           maxNotional: real, maxExitCost: real, maxVenueSpread: real, allowedHashes: Option<seq<string>>)

  datatype ConfigError =
    | InvalidRequiredProducts | RequiredProductsTooLoose | InvalidHoldRegimes | HoldRegimesTooLoose
    | InvalidAges | AgesTooLoose | InvalidNotional | NotionalTooLoose | InvalidExitCost | ExitCostTooLoose
    | InvalidVenueSpread | VenueSpreadTooLoose | InvalidAllowlist

  const HARD_AGES := Ages(8 * 86_400, 86_400, 86_400)
  const HARD_NOTIONAL := 100_000.0
  const HARD_EXIT_COST := 50.0
  const HARD_VENUE_SPREAD := 20.0

  const HARD := Config([Seiche, Undertow], [Stress], HARD_AGES, HARD_NOTIONAL, HARD_EXIT_COST, HARD_VENUE_SPREAD, None)

  function CheckCap(cap: real, hard: real, invalid: ConfigError, loose: ConfigError): Option<ConfigError> {
    if cap <= 0.0 then Some(invalid) else if cap > hard then Some(loose) else None
  }

  function First(first: Option<ConfigError>, second: Option<ConfigError>): Option<ConfigError> {
    if first.Some? then first else second
  }

  /** Why the server refuses to start with this configuration, if it does. */
  function ConfigRefusal(c: Config): Option<ConfigError> {
    if c.requiredProducts == [] || !Distinct(c.requiredProducts) then Some(InvalidRequiredProducts)
    else if Seiche !in c.requiredProducts || Undertow !in c.requiredProducts then Some(RequiredProductsTooLoose)
    else if c.holdRegimes == [] || !Distinct(c.holdRegimes) then Some(InvalidHoldRegimes)
    else if Stress !in c.holdRegimes then Some(HoldRegimesTooLoose)
    else if c.maxAgeSeconds.seiche <= 0 || c.maxAgeSeconds.undertow <= 0 || c.maxAgeSeconds.liquilens <= 0 then Some(InvalidAges)
    else if c.maxAgeSeconds.seiche > HARD_AGES.seiche || c.maxAgeSeconds.undertow > HARD_AGES.undertow
            || c.maxAgeSeconds.liquilens > HARD_AGES.liquilens then Some(AgesTooLoose)
    else
      First(CheckCap(c.maxNotional, HARD_NOTIONAL, InvalidNotional, NotionalTooLoose),
      First(CheckCap(c.maxExitCost, HARD_EXIT_COST, InvalidExitCost, ExitCostTooLoose),
      First(CheckCap(c.maxVenueSpread, HARD_VENUE_SPREAD, InvalidVenueSpread, VenueSpreadTooLoose),
            if c.allowedHashes.Some? && (c.allowedHashes.value == [] || !Distinct(c.allowedHashes.value)
                                         || exists d :: d in c.allowedHashes.value && !IsDigest(d))
            then Some(InvalidAllowlist) else None)))
  }

  /** What each refusal says of the configuration. */
  ghost predicate ConfigStands(x: ConfigError, c: Config) {
    match x
    case InvalidRequiredProducts => |c.requiredProducts| == 0 || Repeats(c.requiredProducts)
    case RequiredProductsTooLoose => Seiche !in c.requiredProducts || Undertow !in c.requiredProducts
    case InvalidHoldRegimes => |c.holdRegimes| == 0 || Repeats(c.holdRegimes)
    case HoldRegimesTooLoose => Stress !in c.holdRegimes
    case InvalidAges => c.maxAgeSeconds.seiche < 1 || c.maxAgeSeconds.undertow < 1 || c.maxAgeSeconds.liquilens < 1
    case AgesTooLoose =>
      c.maxAgeSeconds.seiche > 691_200 || c.maxAgeSeconds.undertow > 86_400 || c.maxAgeSeconds.liquilens > 86_400
    case InvalidNotional => c.maxNotional <= 0.0
    case NotionalTooLoose => c.maxNotional > 100_000.0
    case InvalidExitCost => c.maxExitCost <= 0.0
    case ExitCostTooLoose => c.maxExitCost > 50.0
    case InvalidVenueSpread => c.maxVenueSpread <= 0.0
    case VenueSpreadTooLoose => c.maxVenueSpread > 20.0
    case InvalidAllowlist =>
      c.allowedHashes.Some? && (|c.allowedHashes.value| == 0 || Repeats(c.allowedHashes.value)
                                || exists d :: d in c.allowedHashes.value && !IsDigest(d))
  }

  predicate Repeats<T(==)>(xs: seq<T>) {
    exists i, j :: 0 <= i < j < |xs| && xs[i] == xs[j]
  }

  function ConfigPrecedence(x: ConfigError): nat {
    match x
    case InvalidRequiredProducts => 0
    case RequiredProductsTooLoose => 1
    case InvalidHoldRegimes => 2
    case HoldRegimesTooLoose => 3
    case InvalidAges => 4
    case AgesTooLoose => 5
    case InvalidNotional => 6
    case NotionalTooLoose => 7
    case InvalidExitCost => 8
    case ExitCostTooLoose => 9
    case InvalidVenueSpread => 10
    case VenueSpreadTooLoose => 11
    case InvalidAllowlist => 12
  }

  lemma FirstConfigRefusal(c: Config)
    ensures var refusal := ConfigRefusal(c);
            && (refusal.Some? ==> ConfigStands(refusal.value, c))
            && (forall y :: ConfigStands(y, c) ==> refusal.Some? && ConfigPrecedence(refusal.value) <= ConfigPrecedence(y))
  {
    assert Distinct(c.requiredProducts) <==> !Repeats(c.requiredProducts);
    assert Distinct(c.holdRegimes) <==> !Repeats(c.holdRegimes);
    assert c.allowedHashes.Some? ==> (Distinct(c.allowedHashes.value) <==> !Repeats(c.allowedHashes.value));
  }

  /** The server refuses a configuration for the first of these that stands, and starts exactly when none does. */
  lemma ConfigRefusedExactlyWhen(c: Config, x: ConfigError)
    ensures ConfigRefusal(c) == Some(x)
            <==> ConfigStands(x, c) && forall y :: ConfigPrecedence(y) < ConfigPrecedence(x) ==> !ConfigStands(y, c)
    ensures ConfigRefusal(c) == None <==> forall y :: !ConfigStands(y, c)
  {
    FirstConfigRefusal(c);
  }

  /** A configuration read as the policy it imposes. */
  function AsPolicy(c: Config, id: string, version: string): Policy {
    Policy(id, version, c.requiredProducts, c.maxAgeSeconds, c.holdRegimes, Some(c.maxNotional), Some(c.maxExitCost),
           Some(c.maxVenueSpread), true, true, true, false)
  }

  // ----- admission -----

  datatype AdmissionError =
    | PolicyNotNormalized | RequiredProductsPermissive | HoldRegimesPermissive | AgeLoose(product: Product)
    | NotionalRequired | NotionalLoose | ExitCostRequired | ExitCostLoose | VenueSpreadRequired | VenueSpreadLoose
    | MustFailClosed | QuoteRequired | PreviewRequired | ResizeForbidden | HashNotAllowed

  function BoundedNumber(value: Option<real>, limit: real, required: AdmissionError, loose: AdmissionError): Option<AdmissionError> {
    if value.None? then Some(required) else if value.value > limit then Some(loose) else None
  }

  function Before(first: Option<AdmissionError>, second: Option<AdmissionError>): Option<AdmissionError> {
    if first.Some? then first else second
  }

  /** Why a caller's policy is turned down before any evidence is fetched, if it is. */
  function AdmissionRefusal(c: Config, p: Policy, hash: string): Option<AdmissionError> {
    if !ValidPolicy(p) then Some(PolicyNotNormalized)
    else if exists x :: x in c.requiredProducts && x !in p.requiredProducts then Some(RequiredProductsPermissive)
    else if exists g :: g in c.holdRegimes && g !in p.holdRegimes then Some(HoldRegimesPermissive)
    else if p.maxAgeSeconds.seiche > c.maxAgeSeconds.seiche then Some(AgeLoose(Seiche))
    else if p.maxAgeSeconds.undertow > c.maxAgeSeconds.undertow then Some(AgeLoose(Undertow))
    else if p.maxAgeSeconds.liquilens > c.maxAgeSeconds.liquilens then Some(AgeLoose(LiquiLens))
    else
      Before(BoundedNumber(p.maxNotional, c.maxNotional, NotionalRequired, NotionalLoose),
      Before(BoundedNumber(p.maxExitCost, c.maxExitCost, ExitCostRequired, ExitCostLoose),
      Before(BoundedNumber(p.maxVenueSpread, c.maxVenueSpread, VenueSpreadRequired, VenueSpreadLoose),
        if !p.missingFailsClosed then Some(MustFailClosed)
        else if !p.liveRequiresQuote then Some(QuoteRequired)
        else if !p.liveRequiresPreview then Some(PreviewRequired)
        else if p.autoResize then Some(ResizeForbidden)
        else if c.allowedHashes.Some? && hash !in c.allowedHashes.value then Some(HashNotAllowed)
        else None)))
  }

  /** What each refusal says of the caller's policy. */
  ghost predicate AdmissionStands(x: AdmissionError, c: Config, p: Policy, hash: string) {
    match x
    case PolicyNotNormalized => !IsNormalized(p)
    case RequiredProductsPermissive => exists q :: q in c.requiredProducts && q !in p.requiredProducts
    case HoldRegimesPermissive => exists g :: g in c.holdRegimes && g !in p.holdRegimes
    case AgeLoose(q) => p.maxAgeSeconds.Of(q) > c.maxAgeSeconds.Of(q)
    case NotionalRequired => p.maxNotional == None
    case NotionalLoose => p.maxNotional.Some? && p.maxNotional.value > c.maxNotional
    case ExitCostRequired => p.maxExitCost == None
    case ExitCostLoose => p.maxExitCost.Some? && p.maxExitCost.value > c.maxExitCost
    case VenueSpreadRequired => p.maxVenueSpread == None
    case VenueSpreadLoose => p.maxVenueSpread.Some? && p.maxVenueSpread.value > c.maxVenueSpread
    case MustFailClosed => !p.missingFailsClosed
    case QuoteRequired => !p.liveRequiresQuote
    case PreviewRequired => !p.liveRequiresPreview
    case ResizeForbidden => p.autoResize
    case HashNotAllowed => c.allowedHashes.Some? && hash !in c.allowedHashes.value
  }

  /** A policy of the protocol: both core products, positive ages and caps, nothing twice, and closed on every switch. */
  ghost predicate IsNormalized(p: Policy) {
    && Seiche in p.requiredProducts && Undertow in p.requiredProducts && !Repeats(p.requiredProducts) && !Repeats(p.holdRegimes)
    && (forall q: Product :: p.maxAgeSeconds.Of(q) > 0)
    && (p.maxNotional.Some? ==> p.maxNotional.value > 0.0) && (p.maxExitCost.Some? ==> p.maxExitCost.value > 0.0)
    && (p.maxVenueSpread.Some? ==> p.maxVenueSpread.value > 0.0)
    && p.missingFailsClosed && p.liveRequiresQuote && p.liveRequiresPreview && !p.autoResize
  }

  function AdmissionPrecedence(x: AdmissionError): nat {
    match x
    case PolicyNotNormalized => 0
    case RequiredProductsPermissive => 1
    case HoldRegimesPermissive => 2
    case AgeLoose(Seiche) => 3
    case AgeLoose(Undertow) => 4
    case AgeLoose(LiquiLens) => 5
    case NotionalRequired => 6
    case NotionalLoose => 7
    case ExitCostRequired => 8
    case ExitCostLoose => 9
    case VenueSpreadRequired => 10
    case VenueSpreadLoose => 11
    case MustFailClosed => 12
    case QuoteRequired => 13
    case PreviewRequired => 14
    case ResizeForbidden => 15
    case HashNotAllowed => 16
  }

  lemma ValidIsNormalized(p: Policy)
    ensures ValidPolicy(p) <==> IsNormalized(p)
  {
    assert Distinct(p.requiredProducts) <==> !Repeats(p.requiredProducts);
    assert Distinct(p.holdRegimes) <==> !Repeats(p.holdRegimes);
    var a := p.maxAgeSeconds;
    assert a.seiche == a.Of(Seiche) && a.undertow == a.Of(Undertow) && a.liquilens == a.Of(LiquiLens);
  }

  lemma FirstAdmissionRefusal(c: Config, p: Policy, hash: string)
    ensures var refusal := AdmissionRefusal(c, p, hash);
            && (refusal.Some? ==> AdmissionStands(refusal.value, c, p, hash))
            && (forall y :: AdmissionStands(y, c, p, hash) ==>
                  refusal.Some? && AdmissionPrecedence(refusal.value) <= AdmissionPrecedence(y))
  {
    ValidIsNormalized(p);
  }

  /** A policy is turned down for the first of these that stands, and admitted exactly when none does. */
  lemma TurnedDownExactlyWhen(c: Config, p: Policy, hash: string, x: AdmissionError)
    ensures AdmissionRefusal(c, p, hash) == Some(x)
            <==> AdmissionStands(x, c, p, hash)
                 && forall y :: AdmissionPrecedence(y) < AdmissionPrecedence(x) ==> !AdmissionStands(y, c, p, hash)
    ensures AdmissionRefusal(c, p, hash) == None <==> forall y :: !AdmissionStands(y, c, p, hash)
  {
    FirstAdmissionRefusal(c, p, hash);
  }

  predicate AgesWithin(a: Ages, b: Ages) {
    a.seiche <= b.seiche && a.undertow <= b.undertow && a.liquilens <= b.liquilens
  }

  /**
   * Admission is exact: a valid policy gets in when it is tighter than the server's configuration read
   * as a policy, keeps every age within it, also of products it does not require, and is allow-listed.
   */
  lemma AdmittedExactlyWhenTighter(c: Config, p: Policy, hash: string, id: string, version: string)
    ensures AdmissionRefusal(c, p, hash).None?
            <==> && ValidPolicy(p) && Tighter(p, AsPolicy(c, id, version)) && AgesWithin(p.maxAgeSeconds, c.maxAgeSeconds)
                 && (c.allowedHashes.Some? ==> hash in c.allowedHashes.value)
  {
    if AgesWithin(p.maxAgeSeconds, c.maxAgeSeconds) {
      assert forall x: Product :: p.maxAgeSeconds.Of(x) <= c.maxAgeSeconds.Of(x);
    }
  }

  lemma TighterIsTransitive(p: Policy, q: Policy, s: Policy)
    requires Tighter(p, q) && Tighter(q, s)
    ensures Tighter(p, s)
  {
  }

  /** A configuration the server starts with can only narrow the built-in envelope. */
  lemma ConfigOnlyNarrows(c: Config, id: string, version: string)
    requires ConfigRefusal(c).None?
    ensures Tighter(AsPolicy(c, id, version), AsPolicy(HARD, id, version))
    ensures AgesWithin(c.maxAgeSeconds, HARD_AGES)
    ensures ValidPolicy(AsPolicy(c, id, version))
  {
  }

  /** An admitted policy is at least as severe as the configuration and as the built-in envelope, on every input. */
  lemma AdmittedIsAtLeastAsSevere(c: Config, p: Policy, hash: string, r: Request, e: Evidence, b: Preview, at: Instant,
                                  authenticated: bool)
    requires ConfigRefusal(c).None? && AdmissionRefusal(c, p, hash).None?
    requires ValidEvidence(e) && ValidPreview(b)
    ensures var mine := Severity(Decide(r, e, b, p, at, authenticated).outcome);
            && mine >= Severity(Decide(r, e, b, AsPolicy(c, p.policyId, p.version), at, authenticated).outcome)
            && mine >= Severity(Decide(r, e, b, AsPolicy(HARD, p.policyId, p.version), at, authenticated).outcome)
  {
    var server, hard := AsPolicy(c, p.policyId, p.version), AsPolicy(HARD, p.policyId, p.version);
    AdmittedExactlyWhenTighter(c, p, hash, p.policyId, p.version);
    ConfigOnlyNarrows(c, p.policyId, p.version);
    TighterIsTransitive(p, server, hard);
    TighterIsNeverBetter(r, e, b, p, server, at, authenticated);
    TighterIsNeverBetter(r, e, b, p, hard, at, authenticated);
  }

  /** In particular an admitted policy caps every number within the built-in envelope and holds STRESS. */
  lemma AdmittedStaysInsideHardEnvelope(c: Config, p: Policy, hash: string)
    requires ConfigRefusal(c).None? && AdmissionRefusal(c, p, hash).None?
    ensures CapTighter(p.maxNotional, Some(HARD_NOTIONAL)) && CapTighter(p.maxExitCost, Some(HARD_EXIT_COST))
            && CapTighter(p.maxVenueSpread, Some(HARD_VENUE_SPREAD))
    ensures Stress in p.holdRegimes && Seiche in p.requiredProducts && Undertow in p.requiredProducts
    ensures AgesWithin(p.maxAgeSeconds, HARD_AGES)
  {
    AdmittedExactlyWhenTighter(c, p, hash, "", "");
    ConfigOnlyNarrows(c, "", "");
  }
}
