/** One request, policy and pair of contexts for which the gateway answers PASS: the meaning of a PASS is not empty. */
module GatewayPass {
  import opened Basics
  import opened TradeSafety
  import opened TradeSafetyLifetime
  import R = TradeSafetyReceipts
  import G = PolicyGuard
  import U = UndertowContract
  import opened Gateway
  import opened Examples

  const DEPTH := U.Depth(true, U.OnePercent, true, true, true, 0.02, 2000.0, 3000.0, true)
  const COVERAGE := U.Coverage(true, U.VENUES, U.VENUES, [], None, U.Everywhere(DEPTH))
  const DOLLARS := U.Conversion(U.Usd, U.Identity, 1.0, 1000.0)
  const TETHERS := U.Conversion(U.Usdt, U.BoundUsdtUsd, 1.0, 1000.0)
  const PEG := U.Peg(true, "USDT/USD", "coinbase USDT-USD ticker", 1.0, 0.0, 0.005, false, 0)

  const MEASUREMENT :=
    U.Measurement("BTC/USD", "BTC", "sell", None, "band_interpolation_v1", 1000.0, 1000.0,
                  U.PerVenue(TETHERS, DOLLARS, DOLLARS, DOLLARS, DOLLARS, TETHERS), U.Everywhere(10.0), U.Everywhere(1.0),
                  U.Summary(U.Binance, 10.0, 1.0), U.Summary(U.Okx, 10.0, 1.0), 0.0, 0.0)

  const CLOCKS := U.Clocks(0, 0, U.Everywhere(0), 0.0, 300.0, 0, 0, U.MAX_OBSERVATION_AGE)
  const RIGHTS := U.RightsRecord(true, 0, 0, 1, U.Everywhere(true), U.Everywhere(0))

  function Exit(requestHash: string): U.Context {
    U.Context(true, requestHash, ContractRequest(REQUEST, requestHash), MEASUREMENT, COVERAGE, PEG, CLOCKS, RIGHTS)
  }

  const RISK := U.SeicheContext(true, Calm, 10.0, 90.0, U.Staleness(1, 0, 0, 0, 0, 1), 0, 0, 0, 0, 0)

  function Answers(requestHash: string): Product -> Answer {
    (p: Product) =>
      if p == Seiche then Response("seiche", SeichePayload(RISK))
      else if p == Undertow then Response("undertow", UndertowPayload(Exit(requestHash)))
      else Unreachable
  }

  lemma {:induction false} UniformExtremes(cost: real, venues: seq<U.Venue>)
    requires venues != []
    ensures U.BestOf(U.Everywhere(cost), venues) == venues[0]
    ensures U.WorstOf(U.Everywhere(cost), venues) == venues[|venues| - 1]
    decreases |venues|
  {
    if |venues| > 1 {
      UniformExtremes(cost, venues[..|venues| - 1]);
    }
  }

  lemma {:induction false} UniformClocks(t: Instant, venues: seq<U.Venue>)
    ensures U.Earliest(U.Everywhere(t), t, venues) == t == U.Latest(U.Everywhere(t), t, venues)
    decreases |venues|
  {
    if venues != [] {
      UniformClocks(t, venues[..|venues| - 1]);
    }
  }

  lemma ConversionIsOk(v: U.Venue)
    ensures U.ConversionOk(v, MEASUREMENT, 1.0, DEPTH)
  {
    assert 1000.0 / U.PriceFor(v, 1.0) == 1000.0;
  }

  lemma CostsInDollars()
    ensures U.Cents(U.DollarsOf(1000.0, 10.0)) == 1.0 && U.Cents(U.DollarsOf(1000.0, 0.0)) == 0.0
  {
    assert U.DollarsOf(1000.0, 10.0) == 1.0 && U.DollarsOf(1000.0, 0.0) == 0.0;
    assert U.Cents(1.0) == 1.0 && U.Cents(0.0) == 0.0;
  }

  lemma VenuesAreOk(v: U.Venue)
    ensures U.ConversionOk(v, MEASUREMENT, 1.0, COVERAGE.depth.Of(v)) && U.DollarCostOk(v, MEASUREMENT)
    ensures MEASUREMENT.costsBps.Of(v) == 10.0 && MEASUREMENT.costsUsd.Of(v) == 1.0
  {
    ConversionIsOk(v);
    CostsInDollars();
  }

  lemma MeasurementIsOk(requestHash: string)
    ensures U.MeasurementOk(MEASUREMENT, ContractRequest(REQUEST, requestHash), 1.0, COVERAGE)
  {
    UniformExtremes(10.0, U.VENUES);
    CostsInDollars();
    forall v
      ensures U.ConversionOk(v, MEASUREMENT, 1.0, COVERAGE.depth.Of(v)) && U.DollarCostOk(v, MEASUREMENT)
      ensures MEASUREMENT.costsBps.Of(v) == 10.0 && MEASUREMENT.costsUsd.Of(v) == 1.0
    {
      VenuesAreOk(v);
    }
  }

  lemma ExitIsOk(requestHash: string)
    ensures U.ContextOk(Exit(requestHash), ContractRequest(REQUEST, requestHash), 0, POLICY.maxAgeSeconds.undertow)
  {
    MeasurementIsOk(requestHash);
    UniformClocks(0, U.VENUES);
    assert RIGHTS.venueReviewedAt.Of(U.Okx) == RIGHTS.reviewedAt;
  }

  lemma PlainBitcoin()
    ensures UndertowEligible(REQUEST)
  {
    var s := "BTC";
    assert StripLeft(s) == s && StripRight(s) == s;
    assert Upper(s) == s;
    assert BTC_ALIASES[0] == s;
  }

  /** The hard envelope admits the policy, and the gateway's decision on the answers is PASS. */
  lemma PassIsPossible(h: R.Hashing)
    ensures G.ConfigRefusal(G.HARD).None? && AdmitRefusal(h, G.HARD, REQUEST, POLICY, 0).None?
    ensures ValidEvidence(Assembled(REQUEST, POLICY, h.request(REQUEST), 0, Answers(h.request(REQUEST))))
    ensures R.IssuedDecision(AssessInputs(h, REQUEST, POLICY, 0, Answers(h.request(REQUEST)))).outcome == Pass
  {
    var requestHash := h.request(REQUEST);
    var x := AssessInputs(h, REQUEST, POLICY, 0, Answers(requestHash));
    AdmissionHolds(h);
    AssembledIsValid(REQUEST, POLICY, requestHash, 0, Answers(requestHash));
    SectionsAreUsable(requestHash);
    OutcomeMeaning(x.request, x.evidence, x.preview, x.policy, x.at, false);
  }

  lemma AdmissionHolds(h: R.Hashing)
    ensures G.ConfigRefusal(G.HARD).None? && AdmitRefusal(h, G.HARD, REQUEST, POLICY, 0).None?
  {
    assert ValidRequest(REQUEST) && ValidPolicy(POLICY);
    assert forall x :: x in G.HARD.requiredProducts ==> x in POLICY.requiredProducts;
  }

  function Sections(requestHash: string): Evidence {
    Assembled(REQUEST, POLICY, requestHash, 0, Answers(requestHash))
  }

  lemma SeicheIsUsable(requestHash: string)
    ensures FitIn(Seiche, Sections(requestHash), POLICY.maxAgeSeconds, Observe, 0) && !Held(Sections(requestHash), POLICY)
  {
    assert U.SeicheOk(RISK, 0, POLICY.maxAgeSeconds.seiche);
  }

  lemma UndertowIsUsable(requestHash: string)
    ensures FitIn(Undertow, Sections(requestHash), POLICY.maxAgeSeconds, Observe, 0)
    ensures !OverLimit(REQUEST.order, Sections(requestHash).undertow.facts, POLICY)
  {
    PlainBitcoin();
    ExitIsOk(requestHash);
  }

  lemma SectionsAreUsable(requestHash: string)
    ensures var e := Sections(requestHash);
            && ValidEvidence(e)
            && Ready(REQUEST, e, AbsentPreview(REQUEST, requestHash, 0), POLICY, 0, false)
            && !Held(e, POLICY) && !OverLimit(REQUEST.order, e.undertow.facts, POLICY)
  {
    PlainBitcoin();
    ExitIsOk(requestHash);
    AssembledIsValid(REQUEST, POLICY, requestHash, 0, Answers(requestHash));
    SeicheIsUsable(requestHash);
    UndertowIsUsable(requestHash);
  }
}
