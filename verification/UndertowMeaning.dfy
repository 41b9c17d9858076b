/**
 * What the gateway's validators accept, said of the record itself: rights in force, six whole books, a pegged
 * conversion, clocks of the last two hours, and costs that are what they are called.
 */
module UndertowMeaning {
  import opened Basics
  import opened TradeSafety
  import opened UndertowContract

  // ----- rights -----

  /** Approved as a whole and for each venue, reviewed and in force by the knowledge time, and still in force. */
  ghost predicate InForce(r: RightsRecord, knowledgeAt: Instant, at: Instant) {
    && r.approved && r.venueApproved == Everywhere(true)
    && r.reviewedAt <= knowledgeAt && r.validFrom <= knowledgeAt && r.validFrom < r.validUntil && at < r.validUntil
    && (forall v :: r.venueReviewedAt.Of(v) <= r.reviewedAt)
    && (exists v :: r.venueReviewedAt.Of(v) == r.reviewedAt)
  }

  lemma OfAll<T>(x: PerVenue<T>, y: T)
    ensures x == Everywhere(y) <==> forall v :: x.Of(v) == y
  {
    if forall v :: x.Of(v) == y {
      assert x.Of(Binance) == x.Of(Bitfinex) == x.Of(Coinbase) == x.Of(Gemini) == x.Of(Kraken) == x.Of(Okx) == y;
    }
  }

  lemma RightsMean(r: RightsRecord, knowledgeAt: Instant, at: Instant)
    ensures RightsOk(r, knowledgeAt, at) <==> InForce(r, knowledgeAt, at)
  {
    OfAll(r.venueApproved, true);
  }

  // ----- coverage and peg -----

  /** Every venue was priced, from a bid side deep enough for its band. */
  ghost predicate Covered(c: Coverage) {
    && c.complete && c.gaps == [] && c.lowerBoundNote.None?
    && c.expected == [Binance, Bitfinex, Coinbase, Gemini, Kraken, Okx]
    && c.priced == [Binance, Bitfinex, Coinbase, Gemini, Kraken, Okx]
    && forall v ::
         var d := c.depth.Of(v);
         && d.bid && d.coversRequired && d.withinObserved && 0.0 < d.depthOne <= d.depthTwo && 0.0 <= d.span
         && (d.coversOne <==> d.span >= 0.01) && (d.coversTwo <==> d.span >= 0.02)
  }

  lemma CoverageMeans(c: Coverage)
    ensures CoverageOk(c) <==> Covered(c)
  {
    forall v
      ensures DepthOk(c.depth.Of(v))
              <==> var d := c.depth.Of(v);
                   && d.bid && d.coversRequired && d.withinObserved && 0.0 < d.depthOne <= d.depthTwo && 0.0 <= d.span
                   && (d.coversOne <==> d.span >= 0.01) && (d.coversTwo <==> d.span >= 0.02)
    {
    }
  }

  /** Tether within half a percent of the dollar, by the ticker it is bound to. */
  ghost predicate Pegged(p: Peg) {
    && p.withinThreshold && !p.depegged && p.pair == "USDT/USD" && p.source == "coinbase USDT-USD ticker"
    && p.threshold == 0.005 && p.price > 0.0 && 0.0 <= p.deviation <= 0.005
    && (if p.price <= 1.0 then -0.000000000001 <= p.deviation - (1.0 - p.price) <= 0.000000000001
        else -0.000000000001 <= p.deviation - (p.price - 1.0) <= 0.000000000001)
  }

  lemma PegMeans(p: Peg)
    ensures PegOk(p) <==> Pegged(p)
  {
  }

  // ----- clocks -----

  /** The oldest and the newest of the six books and the peg, at most five minutes apart and two hours old, in order. */
  ghost predicate Timely(c: Clocks, pegAt: Instant, at: Instant, maxAge: int) {
    && (forall v :: c.oldestAt <= c.venueAt.Of(v) <= c.observationAt) && c.oldestAt <= pegAt <= c.observationAt
    && (c.oldestAt == pegAt || exists v :: c.oldestAt == c.venueAt.Of(v))
    && (c.observationAt == pegAt || exists v :: c.observationAt == c.venueAt.Of(v))
    && c.observationAt <= c.knowledgeAt <= c.retrievedAt <= at
    && c.observationAt - c.oldestAt <= 300_000_000 && c.skewAllowed == 300.0 && c.skewSeconds >= 0.0
    && -0.001 <= c.skewSeconds * 1_000_000.0 - (c.observationAt - c.oldestAt) as real <= 0.001
    && c.expiresAt == c.oldestAt + 7_200_000_000 && at < c.expiresAt
    && at - c.oldestAt <= 1_000_000 * maxAge
  }

  lemma {:induction false} ExtremesAttained(clocks: PerVenue<Instant>, peg: Instant, venues: seq<Venue>)
    ensures Earliest(clocks, peg, venues) == peg || exists v :: Earliest(clocks, peg, venues) == clocks.Of(v)
    ensures Latest(clocks, peg, venues) == peg || exists v :: Latest(clocks, peg, venues) == clocks.Of(v)
    decreases |venues|
  {
    if venues != [] {
      ExtremesAttained(clocks, peg, venues[..|venues| - 1]);
      assert clocks.Of(venues[|venues| - 1]) == clocks.Of(venues[|venues| - 1]);
    }
  }

  /** A bound that is attained is the extreme. */
  lemma EarliestMeans(clocks: PerVenue<Instant>, peg: Instant, t: Instant)
    ensures t == Earliest(clocks, peg, VENUES)
            <==> t <= peg && (forall v :: t <= clocks.Of(v)) && (t == peg || exists v :: t == clocks.Of(v))
  {
    ClocksBound(clocks, peg, VENUES);
    ExtremesAttained(clocks, peg, VENUES);
    forall v ensures Earliest(clocks, peg, VENUES) <= clocks.Of(v) {
      AllVenues(v);
    }
  }

  lemma LatestMeans(clocks: PerVenue<Instant>, peg: Instant, t: Instant)
    ensures t == Latest(clocks, peg, VENUES)
            <==> peg <= t && (forall v :: clocks.Of(v) <= t) && (t == peg || exists v :: t == clocks.Of(v))
  {
    ClocksBound(clocks, peg, VENUES);
    ExtremesAttained(clocks, peg, VENUES);
    forall v ensures clocks.Of(v) <= Latest(clocks, peg, VENUES) {
      AllVenues(v);
    }
  }

  lemma ClocksMean(c: Clocks, pegAt: Instant, at: Instant, maxAge: int)
    ensures ClocksOk(c, pegAt, at) && Fresh(c.oldestAt, at, maxAge) <==> Timely(c, pegAt, at, maxAge)
  {
    EarliestMeans(c.venueAt, pegAt, c.oldestAt);
    LatestMeans(c.venueAt, pegAt, c.observationAt);
    assert c.skewSeconds * SECOND as real == c.skewSeconds * 1_000_000.0;
  }

  // ----- costs -----

  /** The alphabetical place of a venue, which breaks ties. */
  function Place(v: Venue): nat {
    match v
    case Binance => 0
    case Bitfinex => 1
    case Coinbase => 2
    case Gemini => 3
    case Kraken => 4
    case Okx => 5
  }

  /** No venue is cheaper, and of the equally cheap none comes before. */
  ghost predicate IsCheapest(v: Venue, costs: PerVenue<real>) {
    forall w :: costs.Of(v) < costs.Of(w) || (costs.Of(v) == costs.Of(w) && Place(v) <= Place(w))
  }

  /** No venue is dearer, and of the equally dear none comes after. */
  ghost predicate IsDearest(v: Venue, costs: PerVenue<real>) {
    forall w :: costs.Of(v) > costs.Of(w) || (costs.Of(v) == costs.Of(w) && Place(v) >= Place(w))
  }

  /** The cheapest and the dearest so far, among the first venues. */
  ghost predicate CheapestOf(v: Venue, costs: PerVenue<real>, n: nat) {
    Place(v) < n
    && forall w :: Place(w) < n ==> costs.Of(v) < costs.Of(w) || (costs.Of(v) == costs.Of(w) && Place(v) <= Place(w))
  }

  ghost predicate DearestOf(v: Venue, costs: PerVenue<real>, n: nat) {
    Place(v) < n
    && forall w :: Place(w) < n ==> costs.Of(v) > costs.Of(w) || (costs.Of(v) == costs.Of(w) && Place(v) >= Place(w))
  }

  lemma PlaceIsIndex(v: Venue, k: nat)
    requires k < 6
    ensures VENUES[k] == v <==> Place(v) == k
  {
  }

  lemma {:induction false} BestIsCheapest(costs: PerVenue<real>, n: nat)
    requires 1 <= n <= 6
    ensures CheapestOf(BestOf(costs, VENUES[..n]), costs, n)
    decreases n
  {
    forall v ensures VENUES[n - 1] == v <==> Place(v) == n - 1 {
      PlaceIsIndex(v, n - 1);
    }
    if n > 1 {
      BestIsCheapest(costs, n - 1);
      assert VENUES[..n][..n - 1] == VENUES[..n - 1] && VENUES[..n][n - 1] == VENUES[n - 1];
    }
  }

  lemma {:induction false} WorstIsDearest(costs: PerVenue<real>, n: nat)
    requires 1 <= n <= 6
    ensures DearestOf(WorstOf(costs, VENUES[..n]), costs, n)
    decreases n
  {
    forall v ensures VENUES[n - 1] == v <==> Place(v) == n - 1 {
      PlaceIsIndex(v, n - 1);
    }
    if n > 1 {
      WorstIsDearest(costs, n - 1);
      assert VENUES[..n][..n - 1] == VENUES[..n - 1] && VENUES[..n][n - 1] == VENUES[n - 1];
    }
  }

  lemma SamePlace(v: Venue, w: Venue)
    requires Place(v) == Place(w)
    ensures v == w
  {
  }

  lemma CheapestMeans(costs: PerVenue<real>, v: Venue)
    ensures v == BestOf(costs, VENUES) <==> IsCheapest(v, costs)
  {
    BestIsCheapest(costs, 6);
    assert VENUES[..6] == VENUES;
    var best := BestOf(costs, VENUES);
    if IsCheapest(v, costs) {
      assert Place(v) <= Place(best) && Place(best) <= Place(v);
      SamePlace(v, best);
    }
  }

  lemma DearestMeans(costs: PerVenue<real>, v: Venue)
    ensures v == WorstOf(costs, VENUES) <==> IsDearest(v, costs)
  {
    WorstIsDearest(costs, 6);
    assert VENUES[..6] == VENUES;
    var worst := WorstOf(costs, VENUES);
    if IsDearest(v, costs) {
      assert Place(v) <= Place(worst) && Place(worst) <= Place(v);
      SamePlace(v, worst);
    }
  }

  ghost predicate Within(x: real, y: real, tolerance: real) {
    -tolerance <= x - y <= tolerance
  }

  /** The nearest whole number of cents, and of two equally near the even one. */
  ghost predicate Nearest(cents: int, exact: real) {
    && -0.5 <= 100.0 * exact - cents as real <= 0.5
    && (100.0 * exact - cents as real == 0.5 || 100.0 * exact - cents as real == -0.5 ==> cents % 2 == 0)
  }

  ghost predicate IsCents(usd: real, exact: real) {
    exists cents: int :: Nearest(cents, exact) && Within(usd, cents as real / 100.0, 0.000000001)
  }

  lemma CentsMean(usd: real, exact: real)
    ensures Close(usd, Cents(exact), 0.000000001) <==> IsCents(usd, exact)
  {
    var n := (100.0 * exact).Floor;
    var part := 100.0 * exact - n as real;
    var cents := if part < 0.5 || (part == 0.5 && n % 2 == 0) then n else n + 1;
    assert Cents(exact) == cents as real / 100.0;
    assert Nearest(cents, exact);
    forall k: int | Nearest(k, exact) ensures k == cents {
      assert k == n || k == n + 1;
    }
    assert Close(usd, Cents(exact), 0.000000001) <==> Within(usd, cents as real / 100.0, 0.000000001);
  }

  /** What a venue's quote currency is worth: the peg's price for the two that trade tether, else a dollar. */
  function Worth(v: Venue, p: Peg): real {
    if v == Binance || v == Okx then p.price else 1.0
  }

  /** The size in the venue's own currency, the band it needs, and that the observed depth takes it. */
  ghost predicate Converted(v: Venue, m: Measurement, p: Peg, d: Depth)
    requires p.price > 0.0
  {
    var c := m.conversions.Of(v);
    && c.quote == (if v == Binance || v == Okx then Usdt else Usd)
    && c.state == (if v == Binance || v == Okx then BoundUsdtUsd else Identity)
    && c.usdPerQuote > 0.0 && Within(c.usdPerQuote, Worth(v, p), 0.000000000001)
    && c.notionalQuote > 0.0
    && (Within(c.notionalQuote, m.size / Worth(v, p), 0.000001)
        || Within(c.notionalQuote, m.size / Worth(v, p), 0.000000000001 * Max(Abs(c.notionalQuote), Abs(m.size / Worth(v, p)))))
    && d.requiredBand == (if c.notionalQuote <= d.depthOne then OnePercent else TwoPercent)
    && (d.withinObserved <==> c.notionalQuote <= d.depthTwo)
  }

  lemma ConversionMeans(v: Venue, m: Measurement, p: Peg, d: Depth)
    requires p.price > 0.0
    ensures ConversionOk(v, m, p.price, d) <==> Converted(v, m, p, d)
  {
    var c := m.conversions.Of(v);
    assert PriceFor(v, p.price) == Worth(v, p);
    MaxTolerance(c.notionalQuote, m.size / Worth(v, p), 0.000000000001 * Max(Abs(c.notionalQuote), Abs(m.size / Worth(v, p))), 0.000001);
  }

  lemma MaxTolerance(x: real, y: real, a: real, b: real)
    ensures Abs(x - y) <= Max(a, b) <==> Within(x, y, b) || Within(x, y, a)
  {
  }

  /** Selling this much bitcoin for dollars across the six venues. */
  ghost predicate OfThisSale(m: Measurement, size: real) {
    && m.instrument == "BTC/USD" && m.asset == "BTC" && m.side == "sell" && m.venue.None? && m.estimator == "band_interpolation_v1"
    && m.size == size && m.rung == size && (size == 1000.0 || size == 10000.0 || size == 100000.0 || size == 1000000.0)
  }

  /** A basis point is a ten-thousandth. */
  function Dollars(size: real, bps: real): real {
    size * (bps / 10000.0)
  }

  lemma DollarsMean(size: real, bps: real)
    ensures DollarsOf(size, bps) == Dollars(size, bps)
  {
    var share := bps / 10000.0;
    assert bps == share * 10000.0;
    assert size * bps == size * share * 10000.0;
  }

  ghost predicate Costed(v: Venue, m: Measurement) {
    m.costsBps.Of(v) >= 0.0 && m.costsUsd.Of(v) >= 0.0 && IsCents(m.costsUsd.Of(v), Dollars(m.size, m.costsBps.Of(v)))
  }

  /** The cheapest and the dearest venue with their costs, and the spread between them. */
  ghost predicate Summarised(m: Measurement) {
    && IsCheapest(m.best.venue, m.costsBps) && m.best.costBps == m.costsBps.Of(m.best.venue)
    && m.best.costUsd == m.costsUsd.Of(m.best.venue)
    && IsDearest(m.worst.venue, m.costsBps) && m.worst.costBps == m.costsBps.Of(m.worst.venue)
    && m.worst.costUsd == m.costsUsd.Of(m.worst.venue)
    && m.spreadBps >= 0.0 && m.spreadUsd >= 0.0
    && Within(m.spreadBps, m.worst.costBps - m.best.costBps, 0.000000000001)
    && IsCents(m.spreadUsd, Dollars(m.size, m.worst.costBps - m.best.costBps))
  }

  /** The measurement is of this sale, and every number in it is what it is called. */
  ghost predicate Priced(m: Measurement, size: real, p: Peg, c: Coverage)
    requires p.price > 0.0
  {
    && OfThisSale(m, size) && (forall v :: Costed(v, m)) && (forall v :: Converted(v, m, p, c.depth.Of(v))) && Summarised(m)
  }

  lemma SummariesMean(m: Measurement)
    ensures SummaryOf(m.best, BestOf(m.costsBps, VENUES), m)
            <==> IsCheapest(m.best.venue, m.costsBps) && m.best.costBps == m.costsBps.Of(m.best.venue)
                 && m.best.costUsd == m.costsUsd.Of(m.best.venue)
    ensures SummaryOf(m.worst, WorstOf(m.costsBps, VENUES), m)
            <==> IsDearest(m.worst.venue, m.costsBps) && m.worst.costBps == m.costsBps.Of(m.worst.venue)
                 && m.worst.costUsd == m.costsUsd.Of(m.worst.venue)
  {
    CheapestMeans(m.costsBps, m.best.venue);
    DearestMeans(m.costsBps, m.worst.venue);
  }

  lemma CostsMean(v: Venue, m: Measurement)
    ensures m.costsBps.Of(v) >= 0.0 && m.costsUsd.Of(v) >= 0.0 && DollarCostOk(v, m) <==> Costed(v, m)
  {
    DollarsMean(m.size, m.costsBps.Of(v));
    CentsMean(m.costsUsd.Of(v), Dollars(m.size, m.costsBps.Of(v)));
  }

  lemma SaleMeans(m: Measurement, expected: ExitRequest)
    ensures IdentityOk(m, expected) <==> OfThisSale(m, expected.size)
  {
  }

  ghost predicate SummariesOk(m: Measurement) {
    && SummaryOf(m.best, BestOf(m.costsBps, VENUES), m) && SummaryOf(m.worst, WorstOf(m.costsBps, VENUES), m)
    && m.spreadBps >= 0.0 && m.spreadUsd >= 0.0
    && Close(m.spreadBps, m.worst.costBps - m.best.costBps, 0.000000000001)
    && Close(m.spreadUsd, Cents(DollarsOf(m.size, m.worst.costBps - m.best.costBps)), 0.000000001)
  }

  lemma SpreadMeans(m: Measurement)
    ensures SummariesOk(m) <==> Summarised(m)
  {
    SummariesMean(m);
    DollarsMean(m.size, m.worst.costBps - m.best.costBps);
    CentsMean(m.spreadUsd, Dollars(m.size, m.worst.costBps - m.best.costBps));
  }

  ghost predicate VenuesOk(m: Measurement, p: Peg, c: Coverage)
    requires p.price > 0.0
  {
    && (forall v :: m.costsBps.Of(v) >= 0.0 && m.costsUsd.Of(v) >= 0.0)
    && (forall v :: ConversionOk(v, m, p.price, c.depth.Of(v))) && (forall v :: DollarCostOk(v, m))
  }

  lemma VenuesMean(m: Measurement, p: Peg, c: Coverage)
    requires p.price > 0.0
    ensures VenuesOk(m, p, c) <==> (forall v :: Costed(v, m)) && forall v :: Converted(v, m, p, c.depth.Of(v))
  {
    forall v
      ensures m.costsBps.Of(v) >= 0.0 && m.costsUsd.Of(v) >= 0.0 && DollarCostOk(v, m) <==> Costed(v, m)
      ensures ConversionOk(v, m, p.price, c.depth.Of(v)) <==> Converted(v, m, p, c.depth.Of(v))
    {
      CostsMean(v, m);
      ConversionMeans(v, m, p, c.depth.Of(v));
    }
  }

  lemma MeasurementInParts(m: Measurement, expected: ExitRequest, p: Peg, c: Coverage)
    requires p.price > 0.0
    ensures MeasurementOk(m, expected, p.price, c) <==> IdentityOk(m, expected) && VenuesOk(m, p, c) && SummariesOk(m)
  {
  }

  lemma MeasurementMeans(m: Measurement, expected: ExitRequest, p: Peg, c: Coverage)
    requires p.price > 0.0
    ensures MeasurementOk(m, expected, p.price, c) <==> Priced(m, expected.size, p, c)
  {
    MeasurementInParts(m, expected, p, c);
    SaleMeans(m, expected);
    VenuesMean(m, p, c);
    SpreadMeans(m);
  }

  // ----- the whole context -----

  /** A context the gateway may rely on for one request: bound to it, in force, covered, pegged, timely and priced. */
  ghost predicate Reliable(x: Context, expected: ExitRequest, at: Instant, maxAge: int) {
    && x.boundaryHolds && x.requestHash == expected.requestHash && x.request == expected
    && InForce(x.rights, x.clocks.knowledgeAt, at) && Covered(x.coverage) && Pegged(x.peg)
    && Timely(x.clocks, x.peg.observedAt, at, maxAge) && Priced(x.measurement, expected.size, x.peg, x.coverage)
  }

  /** The validator accepts exactly the reliable contexts. */
  lemma AcceptedExactlyWhenReliable(x: Context, expected: ExitRequest, at: Instant, maxAge: int)
    ensures ParseUndertow(x, expected, at, maxAge).Some? <==> Reliable(x, expected, at, maxAge)
    ensures ContextOk(x, expected, at, maxAge) <==> Reliable(x, expected, at, maxAge)
  {
    RightsMean(x.rights, x.clocks.knowledgeAt, at);
    CoverageMeans(x.coverage);
    PegMeans(x.peg);
    ClocksMean(x.clocks, x.peg.observedAt, at, maxAge);
    if x.peg.price > 0.0 {
      MeasurementMeans(x.measurement, expected, x.peg, x.coverage);
    }
  }

  /** What is taken over from an accepted context. */
  lemma ProjectedExactly(x: Context, expected: ExitRequest, at: Instant, maxAge: int)
    requires ParseUndertow(x, expected, at, maxAge).Some?
    ensures var p := ParseUndertow(x, expected, at, maxAge).value;
            && p.asOf == x.clocks.oldestAt && p.knowledgeTime == x.clocks.knowledgeAt
            && p.nativeExpiresAt == Some(x.clocks.oldestAt + 7_200_000_000)
            && p.facts.requestedSize == Num(expected.size) && p.facts.publishedRung == Num(expected.size)
            && p.facts.worstSellCost == Num(x.measurement.costsBps.Of(x.measurement.worst.venue))
            && p.facts.venueSpread == Num(x.measurement.spreadBps) && p.facts.regime.None?
  {
    AcceptedExactlyWhenReliable(x, expected, at, maxAge);
  }

  // ----- the risk context -----

  /** A regime read from a snapshot no older than allowed, with its ages in whole seconds and its sources counted. */
  ghost predicate ReliableRisk(x: SeicheContext, at: Instant, maxAge: int) {
    && x.boundaryHolds && 0.0 <= x.stressIndex <= 100.0 && 0.0 <= x.coveragePct <= 100.0
    && x.evidenceAt <= x.snapshotAt <= x.evaluatedAt <= at && at - x.evidenceAt <= 1_000_000 * maxAge
    && 1_000_000 * x.snapshotAgeSeconds <= x.evaluatedAt - x.snapshotAt < 1_000_000 * (x.snapshotAgeSeconds + 1)
    && 1_000_000 * x.evidenceAgeSeconds <= x.evaluatedAt - x.evidenceAt < 1_000_000 * (x.evidenceAgeSeconds + 1)
    && var s := x.staleness;
       s.total > 0 && s.freshSources + s.aging + s.stale + s.dead + s.unknown == s.total
  }

  lemma WholeSeconds(span: int, seconds: int)
    ensures seconds == span / SECOND <==> 1_000_000 * seconds <= span < 1_000_000 * (seconds + 1)
  {
  }

  lemma RiskAcceptedExactlyWhenReliable(x: SeicheContext, at: Instant, maxAge: int)
    ensures ParseSeiche(x, at, maxAge).Some? <==> ReliableRisk(x, at, maxAge)
    ensures ParseSeiche(x, at, maxAge).Some? ==>
              var p := ParseSeiche(x, at, maxAge).value;
              && p.asOf == x.evidenceAt && p.knowledgeTime == x.snapshotAt && p.nativeExpiresAt.None?
              && p.facts.regime == Some(x.regime)
  {
    WholeSeconds(x.evaluatedAt - x.snapshotAt, x.snapshotAgeSeconds);
    WholeSeconds(x.evaluatedAt - x.evidenceAt, x.evidenceAgeSeconds);
  }
}
