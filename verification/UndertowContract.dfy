/** The gateway's validators for the two native context contracts: six-venue measurement, coverage, peg and clocks. */
module UndertowContract {
  import opened Basics
  import opened TradeSafety

  datatype Venue = Binance | Bitfinex | Coinbase | Gemini | Kraken | Okx

  /** A value for each of the six venues; any other set of keys is refused before this point. */
  datatype PerVenue<+T> = PerVenue(binance: T, bitfinex: T, coinbase: T, gemini: T, kraken: T, okx: T) {
    function Of(v: Venue): T {
      match v
      case Binance => binance
      case Bitfinex => bitfinex
      case Coinbase => coinbase
      case Gemini => gemini
      case Kraken => kraken
      case Okx => okx
    }
  }

  function Everywhere<T>(x: T): PerVenue<T> {
    PerVenue(x, x, x, x, x, x)
  }

  const VENUES: seq<Venue> := [Binance, Bitfinex, Coinbase, Gemini, Kraken, Okx]

  lemma AllVenues(v: Venue)
    ensures v in VENUES
  {
    match v
    case Binance => assert VENUES[0] == v;
    case Bitfinex => assert VENUES[1] == v;
    case Coinbase => assert VENUES[2] == v;
    case Gemini => assert VENUES[3] == v;
    case Kraken => assert VENUES[4] == v;
    case Okx => assert VENUES[5] == v;
  }

  datatype Quote = Usd | Usdt

  function QuoteOf(v: Venue): Quote {
    if v == Binance || v == Okx then Usdt else Usd
  }

  datatype Band = OnePercent | TwoPercent

  datatype Depth = Depth(bid: bool, requiredBand: Band, coversRequired: bool, coversOne: bool, coversTwo: bool, span: real,
                         depthOne: real, depthTwo: real, withinObserved: bool)

  datatype Coverage = Coverage(complete: bool, expected: seq<Venue>, priced: seq<Venue>, gaps: seq<Venue>,
                               lowerBoundNote: Option<string>, depth: PerVenue<Depth>)

  datatype ConversionState = BoundUsdtUsd | Identity | OtherConversion

  datatype Conversion = Conversion(quote: Quote, state: ConversionState, usdPerQuote: real, notionalQuote: real)

  datatype Summary = Summary(venue: Venue, costBps: real, costUsd: real)

  datatype Measurement = Measurement(
    instrument: string, asset: string, side: string, venue: Option<string>, estimator: string, size: real, rung: real,
    conversions: PerVenue<Conversion>, costsBps: PerVenue<real>, costsUsd: PerVenue<real>,
    best: Summary, worst: Summary, spreadBps: real, spreadUsd: real)

  datatype Peg = Peg(withinThreshold: bool, pair: string, source: string, price: real, deviation: real,
                     threshold: real, depegged: bool, observedAt: Instant)

  datatype Clocks = Clocks(observationAt: Instant, oldestAt: Instant, venueAt: PerVenue<Instant>, skewSeconds: real,
                           skewAllowed: real, knowledgeAt: Instant, retrievedAt: Instant, expiresAt: Instant)

  datatype RightsRecord = RightsRecord(approved: bool, reviewedAt: Instant, validFrom: Instant, validUntil: Instant,
                                       venueApproved: PerVenue<bool>, venueReviewedAt: PerVenue<Instant>)

  datatype ExitRequest = ExitRequest(requestHash: string, mode: Mode, instrument: string, side: string,
                                     venue: Option<string>, size: real)

  /** The response after the checks on fixed text: digest, schema, authority flags, source and ledger proofs. */
  datatype Context = Context(boundaryHolds: bool, requestHash: string, request: ExitRequest, measurement: Measurement,
                             coverage: Coverage, peg: Peg, clocks: Clocks, rights: RightsRecord)

  const DEPEG_THRESHOLD := 0.005
  const MAX_OBSERVATION_AGE: int := 2 * 3600 * SECOND
  const MAX_SKEW_SECONDS := 300

  predicate IsRung(x: real) {
    x == 1000.0 || x == 10000.0 || x == 100000.0 || x == 1000000.0
  }

  predicate Close(x: real, y: real, tolerance: real) {
    Abs(x - y) <= tolerance
  }

  /** Closeness relative to the larger magnitude, with an absolute floor. */
  predicate RelativelyClose(x: real, y: real, relative: real, absolute: real) {
    Abs(x - y) <= Max(relative * Max(Abs(x), Abs(y)), absolute)
  }

  /** To whole cents, ties to the even cent. */
  function Cents(x: real): real {
    var n := (100.0 * x).Floor;
    var part := 100.0 * x - n as real;
    (if part < 0.5 || (part == 0.5 && n % 2 == 0) then n else n + 1) as real / 100.0
  }

  lemma CentsAreNear(x: real)
    ensures Abs(Cents(x) - x) <= 0.005
  {
  }

  // ----- coverage and peg -----

  predicate DepthOk(d: Depth) {
    && d.depthOne > 0.0 && d.depthTwo > 0.0 && d.span >= 0.0 && d.bid && d.coversRequired && d.withinObserved
    && d.coversOne == (d.span >= 0.01) && d.coversTwo == (d.span >= 0.02) && d.depthTwo >= d.depthOne
  }

  predicate CoverageOk(c: Coverage) {
    && c.complete && c.expected == VENUES && c.priced == VENUES && c.lowerBoundNote.None? && c.gaps == []
    && forall v :: DepthOk(c.depth.Of(v))
  }

  predicate PegOk(p: Peg) {
    && p.price > 0.0 && p.deviation >= 0.0 && p.withinThreshold && p.pair == "USDT/USD"
    && p.source == "coinbase USDT-USD ticker" && p.threshold == DEPEG_THRESHOLD && !p.depegged
    && Close(p.deviation, Abs(1.0 - p.price), 0.000000000001) && p.deviation <= DEPEG_THRESHOLD
  }

  // ----- measurement -----

  function PriceFor(v: Venue, pegPrice: real): real {
    if QuoteOf(v) == Usdt then pegPrice else 1.0
  }

  predicate ConversionOk(v: Venue, m: Measurement, pegPrice: real, d: Depth)
    requires pegPrice > 0.0
  {
    var c, price := m.conversions.Of(v), PriceFor(v, pegPrice);
    && c.usdPerQuote > 0.0 && c.notionalQuote > 0.0 && c.quote == QuoteOf(v)
    && c.state == (if c.quote == Usdt then BoundUsdtUsd else Identity)
    && Close(c.usdPerQuote, price, 0.000000000001)
    && RelativelyClose(c.notionalQuote, m.size / price, 0.000000000001, 0.000001)
    && d.requiredBand == (if c.notionalQuote <= d.depthOne then OnePercent else TwoPercent)
    && d.withinObserved == (c.notionalQuote <= d.depthTwo)
  }

  /** What a cost in basis points comes to in dollars. */
  function DollarsOf(size: real, bps: real): real {
    size * bps / 10000.0
  }

  predicate DollarCostOk(v: Venue, m: Measurement) {
    Close(m.costsUsd.Of(v), Cents(DollarsOf(m.size, m.costsBps.Of(v))), 0.000000001)
  }

  /** The first of the cheapest venues, in the published order. */
  function BestOf(costs: PerVenue<real>, venues: seq<Venue>): Venue
    requires venues != []
  {
    if |venues| == 1 then venues[0]
    else
      var rest := BestOf(costs, venues[..|venues| - 1]);
      var v := venues[|venues| - 1];
      if costs.Of(v) < costs.Of(rest) then v else rest
  }

  /** The last of the dearest venues, in the published order. */
  function WorstOf(costs: PerVenue<real>, venues: seq<Venue>): Venue
    requires venues != []
  {
    if |venues| == 1 then venues[0]
    else
      var rest := WorstOf(costs, venues[..|venues| - 1]);
      var v := venues[|venues| - 1];
      if costs.Of(v) >= costs.Of(rest) then v else rest
  }

  lemma {:induction false} ExtremesBound(costs: PerVenue<real>, venues: seq<Venue>, v: Venue)
    requires v in venues
    ensures costs.Of(BestOf(costs, venues)) <= costs.Of(v) <= costs.Of(WorstOf(costs, venues))
  {
    var n := |venues| - 1;
    if n > 0 && v in venues[..n] {
      ExtremesBound(costs, venues[..n], v);
    } else if n > 0 {
      assert v == venues[n];
      ExtremesBound(costs, venues[..n], venues[0]);
    }
  }

  predicate SummaryOf(s: Summary, v: Venue, m: Measurement) {
    s == Summary(v, m.costsBps.Of(v), m.costsUsd.Of(v))
  }

  predicate IdentityOk(m: Measurement, expected: ExitRequest) {
    && m.instrument == "BTC/USD" && m.asset == "BTC" && m.side == "sell" && m.venue.None?
    && m.estimator == "band_interpolation_v1" && m.size == expected.size && m.rung == m.size && IsRung(m.rung)
  }

  predicate MeasurementOk(m: Measurement, expected: ExitRequest, pegPrice: real, coverage: Coverage)
    requires pegPrice > 0.0
  {
    && IdentityOk(m, expected)
    && (forall v :: m.costsBps.Of(v) >= 0.0 && m.costsUsd.Of(v) >= 0.0)
    && (forall v :: ConversionOk(v, m, pegPrice, coverage.depth.Of(v)))
    && (forall v :: DollarCostOk(v, m))
    && SummaryOf(m.best, BestOf(m.costsBps, VENUES), m)
    && SummaryOf(m.worst, WorstOf(m.costsBps, VENUES), m)
    && m.spreadBps >= 0.0 && m.spreadUsd >= 0.0
    && Close(m.spreadBps, m.worst.costBps - m.best.costBps, 0.000000000001)
    && Close(m.spreadUsd, Cents(DollarsOf(m.size, m.worst.costBps - m.best.costBps)), 0.000000001)
  }

  /** What the two published numbers of an accepted measurement say about every venue, and any two. */
  lemma MeasurementBoundsEveryVenue(m: Measurement, expected: ExitRequest, pegPrice: real, coverage: Coverage, v: Venue, w: Venue)
    requires pegPrice > 0.0 && MeasurementOk(m, expected, pegPrice, coverage)
    ensures m.best.costBps <= m.costsBps.Of(v) <= m.worst.costBps
    ensures Abs(m.costsBps.Of(v) - m.costsBps.Of(w)) <= m.spreadBps + 0.000000000001
    ensures m.spreadBps <= m.worst.costBps + 0.000000000001
  {
    AllVenues(v);
    AllVenues(w);
    ExtremesBound(m.costsBps, VENUES, v);
    ExtremesBound(m.costsBps, VENUES, w);
  }

  /** The size fits what was seen of every venue's book, at a conversion price within half a percent of one. */
  lemma MeasurementFitsBooks(m: Measurement, expected: ExitRequest, peg: Peg, coverage: Coverage, v: Venue)
    requires PegOk(peg) && CoverageOk(coverage) && MeasurementOk(m, expected, peg.price, coverage)
    ensures m.conversions.Of(v).notionalQuote <= coverage.depth.Of(v).depthTwo
    ensures Abs(m.conversions.Of(v).usdPerQuote - 1.0) <= 0.005000000002
  {
    var d := coverage.depth.Of(v);
    assert DepthOk(d) && ConversionOk(v, m, peg.price, d);
  }

  lemma CloseToCents(usd: real, exact: real)
    requires Close(usd, Cents(exact), 0.000000001)
    ensures Abs(usd - exact) <= 0.005000001
  {
    CentsAreNear(exact);
  }

  /** The dollar cost of a venue is its cost in basis points of the order's size, to the cent. */
  lemma DollarCostsAreHonest(m: Measurement, expected: ExitRequest, pegPrice: real, coverage: Coverage, v: Venue)
    requires pegPrice > 0.0 && MeasurementOk(m, expected, pegPrice, coverage)
    ensures Abs(m.costsUsd.Of(v) - DollarsOf(expected.size, m.costsBps.Of(v))) <= 0.005000001
  {
    assert DollarCostOk(v, m);
    CloseToCents(m.costsUsd.Of(v), DollarsOf(m.size, m.costsBps.Of(v)));
  }

  // ----- clocks and rights -----

  function Earliest(clocks: PerVenue<Instant>, peg: Instant, venues: seq<Venue>): Instant {
    if venues == [] then peg
    else
      var rest := Earliest(clocks, peg, venues[..|venues| - 1]);
      var t := clocks.Of(venues[|venues| - 1]);
      if t < rest then t else rest
  }

  function Latest(clocks: PerVenue<Instant>, peg: Instant, venues: seq<Venue>): Instant {
    if venues == [] then peg
    else
      var rest := Latest(clocks, peg, venues[..|venues| - 1]);
      var t := clocks.Of(venues[|venues| - 1]);
      if t > rest then t else rest
  }

  lemma {:induction false} ClocksBound(clocks: PerVenue<Instant>, peg: Instant, venues: seq<Venue>)
    ensures Earliest(clocks, peg, venues) <= peg <= Latest(clocks, peg, venues)
    ensures forall v :: v in venues ==> Earliest(clocks, peg, venues) <= clocks.Of(v) <= Latest(clocks, peg, venues)
  {
    if venues != [] {
      var n := |venues| - 1;
      ClocksBound(clocks, peg, venues[..n]);
      assert venues == venues[..n] + [venues[n]];
    }
  }

  predicate Fresh(asOf: Instant, retrievedAt: Instant, maxAge: int) {
    asOf <= retrievedAt && retrievedAt - asOf <= maxAge * SECOND
  }

  predicate ClocksOk(c: Clocks, pegAt: Instant, retrievedAt: Instant) {
    var earliest, latest := Earliest(c.venueAt, pegAt, VENUES), Latest(c.venueAt, pegAt, VENUES);
    && c.oldestAt == earliest && c.observationAt == latest
    && c.oldestAt <= c.observationAt <= c.knowledgeAt <= c.retrievedAt <= retrievedAt
    && c.expiresAt == c.oldestAt + MAX_OBSERVATION_AGE && retrievedAt < c.expiresAt
    && c.skewAllowed == MAX_SKEW_SECONDS as real && c.skewSeconds >= 0.0
    && Close(c.skewSeconds * SECOND as real, (latest - earliest) as real, 0.001)
    && latest - earliest <= MAX_SKEW_SECONDS * SECOND
  }

  /** Accepted clocks put every book, and the peg, inside one five-minute span of the last two hours. */
  lemma ClocksBracketEveryBook(c: Clocks, pegAt: Instant, retrievedAt: Instant, v: Venue, w: Venue)
    requires ClocksOk(c, pegAt, retrievedAt)
    ensures retrievedAt - MAX_OBSERVATION_AGE < c.oldestAt <= c.venueAt.Of(v) <= c.knowledgeAt <= retrievedAt
    ensures c.venueAt.Of(v) - c.venueAt.Of(w) <= MAX_SKEW_SECONDS * SECOND
    ensures c.venueAt.Of(v) - pegAt <= MAX_SKEW_SECONDS * SECOND && pegAt - c.venueAt.Of(v) <= MAX_SKEW_SECONDS * SECOND
  {
    ClocksBound(c.venueAt, pegAt, VENUES);
    AllVenues(v);
    AllVenues(w);
  }

  predicate RightsOk(r: RightsRecord, knowledgeAt: Instant, retrievedAt: Instant) {
    && r.approved && r.reviewedAt <= knowledgeAt && r.validFrom <= knowledgeAt && r.validFrom < r.validUntil
    && retrievedAt < r.validUntil
    && (forall v :: r.venueApproved.Of(v))
    && (exists v :: r.venueReviewedAt.Of(v) == r.reviewedAt)
    && (forall v :: r.venueReviewedAt.Of(v) <= r.reviewedAt)
  }

  predicate ContextOk(x: Context, expected: ExitRequest, retrievedAt: Instant, maxAge: int) {
    && x.boundaryHolds && x.requestHash == expected.requestHash && x.request == expected
    && PegOk(x.peg)
    && ClocksOk(x.clocks, x.peg.observedAt, retrievedAt)
    && Fresh(x.clocks.oldestAt, retrievedAt, maxAge)
    && RightsOk(x.rights, x.clocks.knowledgeAt, retrievedAt)
    && CoverageOk(x.coverage)
    && MeasurementOk(x.measurement, expected, x.peg.price, x.coverage)
  }

  // ----- Seiche -----

  datatype Staleness = Staleness(freshSources: nat, aging: nat, stale: nat, dead: nat, unknown: nat, total: nat)

  datatype SeicheContext = SeicheContext(
    boundaryHolds: bool, regime: Regime, stressIndex: real, coveragePct: real, staleness: Staleness,
    snapshotAt: Instant, evidenceAt: Instant, evaluatedAt: Instant, snapshotAgeSeconds: int, evidenceAgeSeconds: int)

  predicate SeicheOk(x: SeicheContext, retrievedAt: Instant, maxAge: int) {
    && x.boundaryHolds && 0.0 <= x.stressIndex <= 100.0 && 0.0 <= x.coveragePct <= 100.0
    && x.staleness.total > 0
    && x.staleness.total == x.staleness.freshSources + x.staleness.aging + x.staleness.stale + x.staleness.dead + x.staleness.unknown
    && x.evidenceAt <= x.snapshotAt <= x.evaluatedAt <= retrievedAt
    && x.snapshotAgeSeconds == (x.evaluatedAt - x.snapshotAt) / SECOND
    && x.evidenceAgeSeconds == (x.evaluatedAt - x.evidenceAt) / SECOND
    && Fresh(x.evidenceAt, retrievedAt, maxAge)
  }

  // ----- projections -----

  /** The validated fields from which an evidence section is built. */
  datatype Projected = Projected(asOf: Instant, knowledgeTime: Instant, nativeExpiresAt: Option<Instant>, facts: Facts)

  function ParseUndertow(x: Context, expected: ExitRequest, retrievedAt: Instant, maxAge: int): Option<Projected> {
    if !ContextOk(x, expected, retrievedAt, maxAge) then None
    else
      var m := x.measurement;
      Some(Projected(x.clocks.oldestAt, x.clocks.knowledgeAt, Some(x.clocks.expiresAt),
                     Facts(None, Num(m.size), Num(m.rung), Num(m.worst.costBps), Num(m.spreadBps), {"measurement"})))
  }

  function ParseSeiche(x: SeicheContext, retrievedAt: Instant, maxAge: int): Option<Projected> {
    if !SeicheOk(x, retrievedAt, maxAge) then None
    else
      Some(Projected(x.evidenceAt, x.snapshotAt, None, Facts(Some(x.regime), Absent, Absent, Absent, Absent, {"clocks"})))
  }
}
