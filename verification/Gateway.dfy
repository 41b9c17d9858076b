/** The assessment gateway: admit, fetch three contexts, build evidence sections, issue; and what its PASS means. */
module Gateway {
  import opened Basics
  import opened TradeSafety
  import opened TradeSafetyLifetime
  import R = TradeSafetyReceipts
  import G = PolicyGuard
  import U = UndertowContract
  import M = UndertowMeaning

  const EVIDENCE_TTL: int := 60
  const RECEIPT_TTL: int := 60

  const ISSUER := R.Issuer("liquilens-trade-safety-gateway", "0.2.3", "https://liquilens.in/trade-safety-gateway")

  // ----- eligibility -----

  /** Upper case as far as it can produce a letter of an alias: ASCII, dotless i and long s. */
  function UpperChar(c: char): char {
    if 'a' <= c <= 'z' then c - 'a' + 'A'
    else if c as int == 0x131 then 'I'
    else if c as int == 0x17f then 'S'
    else c
  }

  function Upper(s: string): string {
    seq(|s|, i requires 0 <= i < |s| => UpperChar(s[i]))
  }

  function StripLeft(s: string): string {
    if s != "" && IsSpace(s[0]) then StripLeft(s[1..]) else s
  }

  function StripRight(s: string): string {
    if s != "" && IsSpace(s[|s| - 1]) then StripRight(s[..|s| - 1]) else s
  }

  const BTC_ALIASES: seq<string> :=
    ["BTC", "XBT", "BITCOIN", "BTCUSD", "BTC-USD", "BTC/USD", "XBTUSD", "XBT-USD", "XBT/USD"]

  predicate IsBitcoin(symbol: string) {
    Upper(StripRight(StripLeft(symbol))) in BTC_ALIASES
  }

  /** Orders that the six-venue sell measurement can speak about. */
  predicate UndertowEligible(r: Request) {
    && r.mode in {Observe, Paper}
    && r.order.quantity.None? && r.order.venue.None? && r.order.side == Sell
    && r.order.assetClass == "crypto" && IsBitcoin(r.order.symbol)
    && r.order.currency == "USD" && U.IsRung(r.order.notional)
  }

  /** The measurement is asked for exactly an observed or paper sell of bitcoin, in dollars alone, of one of four sizes. */
  lemma EligibleExactlyWhen(r: Request)
    ensures UndertowEligible(r) <==>
              && (r.mode == Observe || r.mode == Paper) && r.order.side == Sell && r.order.quantity == None && r.order.venue == None
              && r.order.assetClass == "crypto" && NamesBitcoin(r.order.symbol) && r.order.currency == "USD"
              && r.order.notional in {1000.0, 10000.0, 100000.0, 1000000.0}
  {
    BitcoinMeans(r.order.symbol);
  }

  function ContractRequest(r: Request, requestHash: string): U.ExitRequest {
    U.ExitRequest(requestHash, r.mode, "BTC/USD", "sell", None, r.order.notional)
  }

  const SLUG_KEY := "liquilens_institution_slug"

  predicate SlugChar(c: char) {
    'a' <= c <= 'z' || '0' <= c <= '9'
  }

  predicate ValidSlug(s: string) {
    1 <= |s| <= 128 && SlugChar(s[0]) && forall i :: 0 < i < |s| ==> SlugChar(s[i]) || s[i] == '-'
  }

  predicate HasSlug(r: Request) {
    SLUG_KEY in r.order.identifiers
  }

  // ----- admission -----

  datatype GatewayError =
    | MalformedRequest | Inadmissible(reason: G.AdmissionError) | RefMismatch | NotYetValid | AlreadyExpired | BadSlug
    | ExpiredWhileRetrieving | NotIssued(cause: R.Error)

  function AdmitRefusal(h: R.Hashing, c: G.Config, r: Request, p: Policy, at: Instant): Option<GatewayError> {
    var refusal := G.AdmissionRefusal(c, p, h.policy(p));
    if !ValidRequest(r) then Some(MalformedRequest)
    else if refusal.Some? then Some(Inadmissible(refusal.value))
    else if !R.PolicyNamed(r, p) then Some(RefMismatch)
    else if at < r.createdAt then Some(NotYetValid)
    else if at >= r.expiresAt then Some(AlreadyExpired)
    else if HasSlug(r) && !ValidSlug(r.order.identifiers[SLUG_KEY]) then Some(BadSlug)
    else None
  }

  /** A lower-case slug: letters, digits and, after the first, hyphens. */
  predicate IsSlug(s: string) {
    && 1 <= |s| <= 128 && s[0] != '-'
    && forall i :: 0 <= i < |s| ==> 'a' <= s[i] <= 'z' || '0' <= s[i] <= '9' || s[i] == '-'
  }

  /** A request is admitted exactly when it is valid, its policy admitted and its own, its time now, and its slug a slug. */
  lemma RequestAdmittedExactlyWhen(h: R.Hashing, c: G.Config, r: Request, p: Policy, at: Instant)
    ensures var refusal := AdmitRefusal(h, c, r, p, at);
            var judged := ValidRequest(r) && G.AdmissionRefusal(c, p, h.policy(p)).None?;
            var named := judged && r.policyId == p.policyId && r.policyVersion == p.version;
            var slugged := "liquilens_institution_slug" in r.order.identifiers ==>
                             IsSlug(r.order.identifiers["liquilens_institution_slug"]);
            && (refusal.None? <==> named && r.createdAt <= at < r.expiresAt && slugged)
            && (refusal == Some(MalformedRequest) <==> !ValidRequest(r))
            && (refusal.Some? && refusal.value.Inadmissible? <==> ValidRequest(r) && !judged)
            && (refusal == Some(RefMismatch) <==> judged && !named)
            && (refusal == Some(NotYetValid) <==> named && at < r.createdAt)
            && (refusal == Some(AlreadyExpired) <==> named && r.createdAt <= at && r.expiresAt <= at)
            && (refusal == Some(BadSlug) <==> named && r.createdAt <= at < r.expiresAt && !slugged)
  {
  }

  /** A letter is upper case, or turns into it: in ASCII, and for the dotless i and the long s. */
  lemma UpperMeans(c: char, letter: char)
    requires 'A' <= letter <= 'Z'
    ensures UpperChar(c) == letter
            <==> || c == letter || c as int == letter as int + 32
                 || (letter == 'I' && c as int == 0x131) || (letter == 'S' && c as int == 0x17f)
  {
  }

  /** White space around it and letter case aside, the symbol is one of these. */
  ghost predicate NamesBitcoin(symbol: string) {
    exists i, j :: 0 <= i < j <= |symbol| && IsCore(symbol, i, j) && Upper(symbol[i..j]) in
      {"BTC", "XBT", "BITCOIN", "BTCUSD", "BTC-USD", "BTC/USD", "XBTUSD", "XBT-USD", "XBT/USD"}
  }

  /** What is left of a text without the white space around it. */
  predicate IsCore(s: string, i: nat, j: nat)
    requires i < j <= |s|
  {
    && !IsSpace(s[i]) && !IsSpace(s[j - 1])
    && (forall k :: 0 <= k < i ==> IsSpace(s[k])) && (forall k :: j <= k < |s| ==> IsSpace(s[k]))
  }

  lemma {:induction false} StripLeftIs(s: string, i: nat)
    requires i < |s| && !IsSpace(s[i]) && forall k :: 0 <= k < i ==> IsSpace(s[k])
    ensures StripLeft(s) == s[i..]
    decreases i
  {
    if i > 0 {
      StripLeftIs(s[1..], i - 1);
      assert s[1..][i - 1..] == s[i..];
    }
  }

  lemma {:induction false} StripRightIs(s: string, j: nat)
    requires 0 < j <= |s| && !IsSpace(s[j - 1]) && forall k :: j <= k < |s| ==> IsSpace(s[k])
    ensures StripRight(s) == s[..j]
    decreases |s|
  {
    if j < |s| {
      StripRightIs(s[..|s| - 1], j);
      assert s[..|s| - 1][..j] == s[..j];
    } else {
      assert s[..j] == s;
    }
  }

  lemma {:induction false} NothingLeft(s: string)
    requires forall k :: 0 <= k < |s| ==> IsSpace(s[k])
    ensures StripLeft(s) == ""
    decreases |s|
  {
    if s != "" {
      NothingLeft(s[1..]);
    }
  }

  lemma StrippedIsCore(s: string, i: nat, j: nat)
    requires i < j <= |s| && IsCore(s, i, j)
    ensures StripRight(StripLeft(s)) == s[i..j]
  {
    StripLeftIs(s, i);
    StripRightIs(s[i..], j - i);
    assert s[i..][..j - i] == s[i..j];
  }

  lemma SomeCore(s: string) returns (i: nat, j: nat)
    ensures (i < j <= |s| && IsCore(s, i, j)) || (i == j == |s| && forall k :: 0 <= k < |s| ==> IsSpace(s[k]))
  {
    i := 0;
    while i < |s| && IsSpace(s[i])
      invariant 0 <= i <= |s| && forall k :: 0 <= k < i ==> IsSpace(s[k])
    {
      i := i + 1;
    }
    j := |s|;
    while j > i && IsSpace(s[j - 1])
      invariant i <= j <= |s| && forall k :: j <= k < |s| ==> IsSpace(s[k])
    {
      j := j - 1;
    }
  }

  /** The nine aliases of bitcoin, and nothing else. */
  lemma BitcoinMeans(symbol: string)
    ensures IsBitcoin(symbol) <==> NamesBitcoin(symbol)
  {
    var i, j := SomeCore(symbol);
    if i < j {
      StrippedIsCore(symbol, i, j);
      forall a, b | 0 <= a < b <= |symbol| && IsCore(symbol, a, b) ensures a == i && b == j {
      }
    } else {
      NothingLeft(symbol);
      assert Upper("") !in BTC_ALIASES;
    }
  }

  // ----- evidence sections -----

  datatype Payload =
    | Undecodable
    | SeichePayload(seiche: U.SeicheContext)
    | UndertowPayload(undertow: U.Context)
    | LiquiLensPayload(status: string, periodEnds: seq<Instant>)

  datatype Answer = Unreachable | Response(sha: string, payload: Payload)

  const NO_FACTS := Facts(None, Absent, Absent, Absent, Absent, {})

  function UnavailableSection(requestHash: string, retrievedAt: Instant, sha: Option<string>): Section {
    Section(requestHash, Missing, sha, None, None, retrievedAt, None, MetadataOnly, false, false, NO_FACTS)
  }

  function NotApplicableSection(requestHash: string, retrievedAt: Instant): Section {
    Section(requestHash, NotApplicable, None, None, None, retrievedAt, None, MetadataOnly, false, false, NO_FACTS)
  }

  /** The local expiry of fetched evidence: the request's, the time to live, or the producer's own. */
  function SectionExpiry(requestExpiresAt: Instant, retrievedAt: Instant, native: Option<Instant>): Instant {
    var own := Min(requestExpiresAt, retrievedAt + EVIDENCE_TTL * SECOND);
    if native.Some? then Min(own, native.value) else own
  }

  function ProjectedSection(x: Option<U.Projected>, sha: string, requestHash: string, retrievedAt: Instant,
                            requestExpiresAt: Instant): Section {
    if x.None? || SectionExpiry(requestExpiresAt, retrievedAt, x.value.nativeExpiresAt) <= retrievedAt
    then UnavailableSection(requestHash, retrievedAt, Some(sha))
    else
      Section(requestHash, ContextOnly, Some(sha), Some(x.value.asOf), Some(x.value.knowledgeTime), retrievedAt,
              Some(SectionExpiry(requestExpiresAt, retrievedAt, x.value.nativeExpiresAt)), MetadataOnly, false, false,
              x.value.facts)
  }

  function SeicheSection(a: Answer, r: Request, p: Policy, requestHash: string, retrievedAt: Instant): Section {
    if a.Unreachable? then UnavailableSection(requestHash, retrievedAt, None)
    else
      var parsed := if a.payload.SeichePayload? then U.ParseSeiche(a.payload.seiche, retrievedAt, p.maxAgeSeconds.seiche) else None;
      ProjectedSection(parsed, a.sha, requestHash, retrievedAt, r.expiresAt)
  }

  function UndertowSection(a: Answer, r: Request, p: Policy, requestHash: string, retrievedAt: Instant): Section {
    if !UndertowEligible(r) || a.Unreachable? then UnavailableSection(requestHash, retrievedAt, None)
    else
      var parsed := if a.payload.UndertowPayload?
                    then U.ParseUndertow(a.payload.undertow, ContractRequest(r, requestHash), retrievedAt, p.maxAgeSeconds.undertow)
                    else None;
      ProjectedSection(parsed, a.sha, requestHash, retrievedAt, r.expiresAt)
  }

  function LatestOf(xs: seq<Instant>): Instant
    requires xs != []
  {
    if |xs| == 1 then xs[0] else if xs[0] < LatestOf(xs[1..]) then LatestOf(xs[1..]) else xs[0]
  }

  function ParseLiquiLens(a: Payload, retrievedAt: Instant): Option<U.Projected> {
    if a.LiquiLensPayload? && R.NonBlank(a.status) && a.periodEnds != [] && LatestOf(a.periodEnds) <= retrievedAt
    then Some(U.Projected(LatestOf(a.periodEnds), retrievedAt, None, NO_FACTS.(others := {"period_end"})))
    else None
  }

  function LiquiLensSection(a: Answer, r: Request, requestHash: string, retrievedAt: Instant): Section {
    if !HasSlug(r) then NotApplicableSection(requestHash, retrievedAt)
    else if a.Unreachable? then UnavailableSection(requestHash, retrievedAt, None)
    else ProjectedSection(ParseLiquiLens(a.payload, retrievedAt), a.sha, requestHash, retrievedAt, r.expiresAt)
  }

  function Assembled(r: Request, p: Policy, requestHash: string, retrievedAt: Instant, network: Product -> Answer): Evidence {
    Evidence(SeicheSection(network(Seiche), r, p, requestHash, retrievedAt),
             UndertowSection(network(Undertow), r, p, requestHash, retrievedAt),
             LiquiLensSection(network(LiquiLens), r, requestHash, retrievedAt))
  }

  function AbsentPreview(r: Request, requestHash: string, retrievedAt: Instant): Preview {
    Preview(PreviewNotApplicable, r.agent.accountId, requestHash, None, retrievedAt, None)
  }

  /** What the gateway hands to the issuer: no key, so a hash-only receipt. */
  function AssessInputs(h: R.Hashing, r: Request, p: Policy, retrievedAt: Instant, network: Product -> Answer): R.Inputs {
    var requestHash := h.request(r);
    R.Inputs(r, Assembled(r, p, requestHash, retrievedAt, network), p, AbsentPreview(r, requestHash, retrievedAt),
             retrievedAt, ISSUER, RECEIPT_TTL, None, None)
  }

  // ----- what each section says -----

  /** Evidence that states nothing. */
  predicate IsBlank(s: Section, requestHash: string, at: Instant) {
    && s.requestHash == requestHash && s.retrievedAt == at && s.asOf.None? && s.knowledgeTime.None? && s.expiresAt.None?
    && s.rights == MetadataOnly && !s.realMoneyEligible && !s.executableQuote
    && s.facts == Facts(None, Absent, Absent, Absent, Absent, {})
  }

  /** Evidence from one answer: context, known when it was, good for a minute or as long as the request and the producer say. */
  predicate IsContext(s: Section, sha: string, asOf: Instant, known: Instant, native: Option<Instant>, r: Request,
                      requestHash: string, at: Instant) {
    && s.requestHash == requestHash && s.retrievedAt == at && s.sourceSha == Some(sha)
    && s.asOf == Some(asOf) && s.knowledgeTime == Some(known) && s.expiresAt.Some?
    && s.expiresAt.value <= r.expiresAt && s.expiresAt.value <= at + 60_000_000
    && (native.Some? ==> s.expiresAt.value <= native.value)
    && (s.expiresAt.value == r.expiresAt || s.expiresAt.value == at + 60_000_000 || s.expiresAt == native)
    && s.rights == MetadataOnly && !s.realMoneyEligible && !s.executableQuote
  }

  lemma ProjectedExactly(x: Option<U.Projected>, sha: string, r: Request, requestHash: string, at: Instant)
    requires at < r.expiresAt && (x.Some? && x.value.nativeExpiresAt.Some? ==> at < x.value.nativeExpiresAt.value)
    ensures var s := ProjectedSection(x, sha, requestHash, at, r.expiresAt);
            if x.None? then s.state == Missing && s.sourceSha == Some(sha) && IsBlank(s, requestHash, at)
            else
              && s.state == ContextOnly && s.facts == x.value.facts
              && IsContext(s, sha, x.value.asOf, x.value.knowledgeTime, x.value.nativeExpiresAt, r, requestHash, at)
  {
  }

  /** The measurement is used exactly when the order is eligible and the answer reliable, and then for what it measured. */
  lemma UndertowSectionExactly(a: Answer, r: Request, p: Policy, requestHash: string, at: Instant)
    requires at < r.expiresAt
    ensures var s := UndertowSection(a, r, p, requestHash, at);
            if UndertowEligible(r) && a.Response? && a.payload.UndertowPayload?
               && M.Reliable(a.payload.undertow, SaleOf(r, requestHash), at, p.maxAgeSeconds.undertow) then
              var x := a.payload.undertow;
              && s.state == ContextOnly
              && IsContext(s, a.sha, x.clocks.oldestAt, x.clocks.knowledgeAt, Some(x.clocks.oldestAt + 7_200_000_000), r, requestHash, at)
              && s.facts.requestedSize == Num(r.order.notional) && s.facts.publishedRung == Num(r.order.notional)
              && s.facts.worstSellCost == Num(x.measurement.costsBps.Of(x.measurement.worst.venue))
              && s.facts.venueSpread == Num(x.measurement.spreadBps)
            else
              && s.state == Missing && IsBlank(s, requestHash, at)
              && s.sourceSha == (if UndertowEligible(r) && a.Response? then Some(a.sha) else None)
  {
    if UndertowEligible(r) && a.Response? && a.payload.UndertowPayload? {
      M.AcceptedExactlyWhenReliable(a.payload.undertow, SaleOf(r, requestHash), at, p.maxAgeSeconds.undertow);
      var parsed := U.ParseUndertow(a.payload.undertow, ContractRequest(r, requestHash), at, p.maxAgeSeconds.undertow);
      if parsed.Some? {
        M.ProjectedExactly(a.payload.undertow, SaleOf(r, requestHash), at, p.maxAgeSeconds.undertow);
      }
      ProjectedExactly(parsed, a.sha, r, requestHash, at);
    } else if UndertowEligible(r) && a.Response? {
      ProjectedExactly(None, a.sha, r, requestHash, at);
    }
  }

  /** The regime is used exactly when the answer is reliable. */
  lemma SeicheSectionExactly(a: Answer, r: Request, p: Policy, requestHash: string, at: Instant)
    requires at < r.expiresAt
    ensures var s := SeicheSection(a, r, p, requestHash, at);
            if a.Response? && a.payload.SeichePayload? && M.ReliableRisk(a.payload.seiche, at, p.maxAgeSeconds.seiche) then
              && s.state == ContextOnly && s.facts.regime == Some(a.payload.seiche.regime)
              && IsContext(s, a.sha, a.payload.seiche.evidenceAt, a.payload.seiche.snapshotAt, None, r, requestHash, at)
            else
              && s.state == Missing && IsBlank(s, requestHash, at)
              && s.sourceSha == (if a.Response? then Some(a.sha) else None)
  {
    if a.Response? {
      var parsed := if a.payload.SeichePayload? then U.ParseSeiche(a.payload.seiche, at, p.maxAgeSeconds.seiche) else None;
      if a.payload.SeichePayload? {
        M.RiskAcceptedExactlyWhenReliable(a.payload.seiche, at, p.maxAgeSeconds.seiche);
      }
      ProjectedExactly(parsed, a.sha, r, requestHash, at);
    }
  }

  /** The last period that has ended is what an institution's filing is evidence of. */
  predicate IsLatest(t: Instant, periodEnds: seq<Instant>) {
    t in periodEnds && forall e :: e in periodEnds ==> e <= t
  }

  lemma {:induction false} LatestOfIsLatest(periodEnds: seq<Instant>)
    requires periodEnds != []
    ensures IsLatest(LatestOf(periodEnds), periodEnds)
    decreases |periodEnds|
  {
    assert periodEnds == [periodEnds[0]] + periodEnds[1..];
    if |periodEnds| > 1 {
      LatestOfIsLatest(periodEnds[1..]);
    }
  }

  /** A filing is used exactly when the request names an institution and the latest period has ended. */
  lemma LiquiLensSectionExactly(a: Answer, r: Request, requestHash: string, at: Instant)
    requires at < r.expiresAt
    ensures var s := LiquiLensSection(a, r, requestHash, at);
            if "liquilens_institution_slug" !in r.order.identifiers then
              s.state == NotApplicable && s.sourceSha.None? && IsBlank(s, requestHash, at)
            else if && a.Response? && a.payload.LiquiLensPayload?
                    && (exists i :: 0 <= i < |a.payload.status| && !IsSpace(a.payload.status[i]))
                    && a.payload.periodEnds != [] && forall e :: e in a.payload.periodEnds ==> e <= at then
              && s.state == ContextOnly && s.asOf.Some? && IsLatest(s.asOf.value, a.payload.periodEnds)
              && IsContext(s, a.sha, s.asOf.value, at, None, r, requestHash, at) && s.facts.regime.None?
            else
              && s.state == Missing && IsBlank(s, requestHash, at)
              && s.sourceSha == (if a.Response? then Some(a.sha) else None)
  {
    if HasSlug(r) && a.Response? {
      if a.payload.LiquiLensPayload? && a.payload.periodEnds != [] {
        LatestOfIsLatest(a.payload.periodEnds);
      }
      ProjectedExactly(ParseLiquiLens(a.payload, at), a.sha, r, requestHash, at);
    }
  }

  // ----- every built section is a valid one -----

  lemma ProjectedSectionIsValid(product: Product, x: Option<U.Projected>, sha: string, requestHash: string,
                                retrievedAt: Instant, requestExpiresAt: Instant)
    requires x.Some? ==> x.value.asOf <= x.value.knowledgeTime <= retrievedAt
    requires x.Some? && product == Seiche ==> x.value.facts.regime.Some?
    requires x.Some? && product == Undertow ==>
               var f := x.value.facts;
               && f.requestedSize.Num? && f.requestedSize.value > 0.0 && f.publishedRung.Num? && f.publishedRung.value > 0.0
               && f.worstSellCost.Num? && f.worstSellCost.value >= 0.0 && f.venueSpread.Num? && f.venueSpread.value >= 0.0
    ensures ValidSection(product, ProjectedSection(x, sha, requestHash, retrievedAt, requestExpiresAt))
  {
  }

  lemma UndertowFactsAreValid(x: U.Context, expected: U.ExitRequest, retrievedAt: Instant, maxAge: int)
    requires U.ContextOk(x, expected, retrievedAt, maxAge)
    ensures x.clocks.oldestAt <= x.clocks.knowledgeAt <= retrievedAt
    ensures x.measurement.size > 0.0 && x.measurement.rung > 0.0 && x.measurement.worst.costBps >= 0.0
            && x.measurement.spreadBps >= 0.0
  {
    var worst := U.WorstOf(x.measurement.costsBps, U.VENUES);
    assert x.measurement.costsBps.Of(worst) >= 0.0;
  }

  lemma UndertowSectionIsValid(u: Answer, r: Request, p: Policy, requestHash: string, retrievedAt: Instant)
    ensures ValidSection(Undertow, UndertowSection(u, r, p, requestHash, retrievedAt))
  {
    if !UndertowEligible(r) || u.Unreachable? {
      return;
    }
    var expected := ContractRequest(r, requestHash);
    var parsed: Option<U.Projected> := None;
    if u.payload.UndertowPayload? {
      parsed := U.ParseUndertow(u.payload.undertow, expected, retrievedAt, p.maxAgeSeconds.undertow);
      if U.ContextOk(u.payload.undertow, expected, retrievedAt, p.maxAgeSeconds.undertow) {
        UndertowFactsAreValid(u.payload.undertow, expected, retrievedAt, p.maxAgeSeconds.undertow);
      }
    }
    ProjectedSectionIsValid(Undertow, parsed, u.sha, requestHash, retrievedAt, r.expiresAt);
  }

  lemma SeicheSectionIsValid(a: Answer, r: Request, p: Policy, requestHash: string, retrievedAt: Instant)
    ensures ValidSection(Seiche, SeicheSection(a, r, p, requestHash, retrievedAt))
  {
    if a.Response? {
      var parsed := if a.payload.SeichePayload? then U.ParseSeiche(a.payload.seiche, retrievedAt, p.maxAgeSeconds.seiche) else None;
      ProjectedSectionIsValid(Seiche, parsed, a.sha, requestHash, retrievedAt, r.expiresAt);
    }
  }

  lemma LiquiLensSectionIsValid(a: Answer, r: Request, requestHash: string, retrievedAt: Instant)
    ensures ValidSection(LiquiLens, LiquiLensSection(a, r, requestHash, retrievedAt))
  {
    if a.Response? {
      ProjectedSectionIsValid(LiquiLens, ParseLiquiLens(a.payload, retrievedAt), a.sha, requestHash, retrievedAt, r.expiresAt);
    }
  }

  lemma AssembledIsValid(r: Request, p: Policy, requestHash: string, retrievedAt: Instant, network: Product -> Answer)
    ensures ValidEvidence(Assembled(r, p, requestHash, retrievedAt, network))
  {
    SeicheSectionIsValid(network(Seiche), r, p, requestHash, retrievedAt);
    UndertowSectionIsValid(network(Undertow), r, p, requestHash, retrievedAt);
    LiquiLensSectionIsValid(network(LiquiLens), r, requestHash, retrievedAt);
  }

  lemma AssembledIsBound(r: Request, p: Policy, requestHash: string, retrievedAt: Instant, network: Product -> Answer)
    ensures R.CheckEvidenceBinding(Assembled(r, p, requestHash, retrievedAt, network), AbsentPreview(r, requestHash, retrievedAt),
                                   r.agent.accountId, requestHash).Ok?
  {
  }

  /** Whatever the upstreams answer, an admitted request's evidence is accepted by the issuer. */
  lemma AssessInputsAreAccepted(h: R.Hashing, c: G.Config, r: Request, p: Policy, startedAt: Instant, retrievedAt: Instant,
                                network: Product -> Answer)
    requires AdmitRefusal(h, c, r, p, startedAt).None?
    requires r.createdAt <= retrievedAt < r.expiresAt
    ensures R.InputRefusal(h, AssessInputs(h, r, p, retrievedAt, network)).Ok?
  {
    AssembledIsValid(r, p, h.request(r), retrievedAt, network);
    AssembledIsBound(r, p, h.request(r), retrievedAt, network);
    assert ValidPolicy(p) by {
      G.AdmittedExactlyWhenTighter(c, p, h.policy(p), "", "");
    }
  }

  // ----- assessment -----

  /** The upstreams an assessment contacts. */
  function Contacts(r: Request): seq<Product> {
    [Seiche] + (if UndertowEligible(r) then [Undertow] else []) + (if HasSlug(r) then [LiquiLens] else [])
  }

  /** The risk producer always, the measurement exactly for eligible orders, and filings exactly for named institutions. */
  lemma ContactsExactly(r: Request, x: Product)
    ensures x in Contacts(r)
            <==> match x
                 case Seiche => true
                 case Undertow => UndertowEligible(r)
                 case LiquiLens => "liquilens_institution_slug" in r.order.identifiers
    ensures Distinct(Contacts(r))
  {
  }

  /** What the gateway signs for: its own name, no key, and a minute at the most. */
  lemma ReceiptsAreBrief(h: R.Hashing, r: Request, p: Policy, retrievedAt: Instant, network: Product -> Answer, receipt: R.Receipt)
    requires ValidEvidence(AssessInputs(h, r, p, retrievedAt, network).evidence)
    requires R.Binds(receipt, AssessInputs(h, r, p, retrievedAt, network))
    ensures receipt.request == r && receipt.policy == p && receipt.evaluatedAt == retrievedAt
    ensures receipt.expiresAt <= retrievedAt + 60_000_000
    ensures receipt.issuer.name == "liquilens-trade-safety-gateway" && receipt.profile == R.Sha256 && receipt.keyId.None?
    ensures receipt.preview.state == PreviewNotApplicable && receipt.preview.accountId == r.agent.accountId
  {
    var x := AssessInputs(h, r, p, retrievedAt, network);
    R.CeilingIsWithinTtl(x.request, x.evidence, x.preview, x.policy, x.at, x.ttl, R.IssuedDecision(x).outcome != Unavailable);
  }

  lemma IssueFailsOnlyForTheClock(h: R.Hashing, c: G.Config, r: Request, p: Policy, startedAt: Instant, retrievedAt: Instant,
                                  network: Product -> Answer, error: R.Error)
    requires AdmitRefusal(h, c, r, p, startedAt).None? && retrievedAt < r.expiresAt
    requires R.Refused(h, AssessInputs(h, r, p, retrievedAt, network), error)
    ensures error == if retrievedAt < r.createdAt then R.RequestNotYetValid else R.NoSafeWindow
  {
    if retrievedAt >= r.createdAt {
      AssessInputsAreAccepted(h, c, r, p, startedAt, retrievedAt, network);
    } else {
      AssembledIsValid(r, p, h.request(r), retrievedAt, network);
      G.AdmittedExactlyWhenTighter(c, p, h.policy(p), "", "");
    }
  }

  /** Awaits every call, successful or not, and files the answers by name. */
  method Gather(calls: seq<Product>, network: Product -> Answer) returns (fetched: map<Product, Answer>)
    ensures forall k :: 0 <= k < |calls| ==> calls[k] in fetched
    ensures forall x :: x in fetched ==> fetched[x] == network(x)
  {
    fetched := map[];
    var i := 0;
    while i < |calls|
      invariant 0 <= i <= |calls|
      invariant forall k :: 0 <= k < i ==> calls[k] in fetched
      invariant forall x :: x in fetched ==> fetched[x] == network(x)
    {
      fetched := fetched[calls[i] := network(calls[i])];
      i := i + 1;
    }
  }

  /** Asks every producer the request concerns, together, and projects what they answered. */
  method Retrieve(r: Request, p: Policy, requestHash: string, retrievedAt: Instant, network: Product -> Answer)
    returns (evidence: Evidence, contacted: seq<Product>)
    ensures evidence == Assembled(r, p, requestHash, retrievedAt, network) && contacted == Contacts(r)
  {
    var calls := [Seiche];
    if UndertowEligible(r) {
      calls := calls + [Undertow];
    }
    if HasSlug(r) {
      calls := calls + [LiquiLens];
    }
    assert calls == Contacts(r);
    var fetched := Gather(calls, network);
    assert calls[0] == Seiche && (UndertowEligible(r) ==> calls[1] == Undertow) && (HasSlug(r) ==> calls[|calls| - 1] == LiquiLens);
    contacted := calls;
    var undertow := if UndertowEligible(r) then UndertowSection(fetched[Undertow], r, p, requestHash, retrievedAt)
                    else UnavailableSection(requestHash, retrievedAt, None);
    var liquilens := if HasSlug(r) then LiquiLensSection(fetched[LiquiLens], r, requestHash, retrievedAt)
                     else NotApplicableSection(requestHash, retrievedAt);
    evidence := Evidence(SeicheSection(fetched[Seiche], r, p, requestHash, retrievedAt), undertow, liquilens);
  }

  /**
   * One assessment.  Nothing is contacted unless the policy is admitted, and the measurement tool only for
   * eligible orders.  Past retrieval the only failures are a clock that went back before the request and
   * evidence exactly at its age limit; every other upstream answer ends in a receipt.
   */
  method Assess(h: R.Hashing, c: G.Config, r: Request, p: Policy, startedAt: Instant, retrievedAt: Instant,
                network: Product -> Answer)
    returns (result: Result<R.Receipt, GatewayError>, contacted: seq<Product>)
    requires R.Digests(h)
    ensures contacted == if AdmitRefusal(h, c, r, p, startedAt).Some? then [] else Contacts(r)
    ensures var refusal := AdmitRefusal(h, c, r, p, startedAt);
            && (refusal.Some? ==> result == Err(refusal.value))
            && (refusal.None? && r.expiresAt <= retrievedAt ==> result == Err(ExpiredWhileRetrieving))
            && (refusal.None? && retrievedAt < r.createdAt ==> result == Err(NotIssued(R.RequestNotYetValid)))
            && (refusal.None? && r.createdAt <= retrievedAt < r.expiresAt && result.Err? ==> result == Err(NotIssued(R.NoSafeWindow)))
    ensures var x := AssessInputs(h, r, p, retrievedAt, network);
            result.Ok? <==> && AdmitRefusal(h, c, r, p, startedAt).None? && retrievedAt < r.expiresAt
                            && R.Acceptable(h, x) && retrievedAt < R.IssuedExpiry(x)
    ensures result.Ok? ==> AdmitRefusal(h, c, r, p, startedAt).None? && r.createdAt <= retrievedAt < r.expiresAt
    ensures result.Ok? ==> R.InputRefusal(h, AssessInputs(h, r, p, retrievedAt, network)).Ok?
    ensures result.Ok? ==> R.Binds(result.value, AssessInputs(h, r, p, retrievedAt, network))
    ensures result.Ok? ==> forall t :: R.Verify(h, result.value, t, None).Ok?
                                       <==> retrievedAt <= t < result.value.expiresAt
  {
    contacted := [];
    var refusal := AdmitRefusal(h, c, r, p, startedAt);
    if refusal.Some? {
      return Err(refusal.value), contacted;
    }
    var evidence: Evidence;
    evidence, contacted := Retrieve(r, p, h.request(r), retrievedAt, network);
    if retrievedAt >= r.expiresAt {
      return Err(ExpiredWhileRetrieving), contacted;
    }
    var requestHash := h.request(r);
    var inputs := R.Inputs(r, evidence, p, AbsentPreview(r, requestHash, retrievedAt), retrievedAt, ISSUER, RECEIPT_TTL, None, None);
    var issued := R.Issue(h, inputs);
    match issued {
      case Ok(receipt) => result := Ok(receipt);
      case Err(error) =>
        IssueFailsOnlyForTheClock(h, c, r, p, startedAt, retrievedAt, network, error);
        result := Err(NotIssued(error));
    }
  }

  // ----- what PASS means -----

  /** A sell of a published size in bitcoin for dollars, observed or on paper, stated in notional alone. */
  predicate PlainBitcoinSell(r: Request) {
    && r.mode != Live && r.order.side == Sell && r.order.quantity.None? && r.order.venue.None?
    && r.order.assetClass == "crypto" && IsBitcoin(r.order.symbol) && r.order.currency == "USD"
    && (r.order.notional == 1000.0 || r.order.notional == 10000.0 || r.order.notional == 100000.0)
  }

  /** Six venues that can each take the whole order at no more than the caps. */
  predicate ExitWithinCaps(m: U.Measurement, notional: real, exitCost: real, spread: real) {
    && m.size == notional
    && (forall v :: m.costsBps.Of(v) <= exitCost)
    && (forall v, w :: Abs(m.costsBps.Of(v) - m.costsBps.Of(w)) <= spread + 0.000000000001)
  }

  lemma UsableUndertowMeans(u: Answer, r: Request, p: Policy, requestHash: string, retrievedAt: Instant)
    requires Usable(UndertowSection(u, r, p, requestHash, retrievedAt).state)
    ensures UndertowEligible(r) && u.Response? && u.payload.UndertowPayload?
    ensures U.ContextOk(u.payload.undertow, ContractRequest(r, requestHash), retrievedAt, p.maxAgeSeconds.undertow)
    ensures UndertowSection(u, r, p, requestHash, retrievedAt).facts.worstSellCost == Num(u.payload.undertow.measurement.worst.costBps)
    ensures UndertowSection(u, r, p, requestHash, retrievedAt).facts.venueSpread == Num(u.payload.undertow.measurement.spreadBps)
  {
  }

  lemma UsableSeicheMeans(u: Answer, r: Request, p: Policy, requestHash: string, retrievedAt: Instant)
    requires Usable(SeicheSection(u, r, p, requestHash, retrievedAt).state)
    ensures u.Response? && u.payload.SeichePayload?
    ensures M.ReliableRisk(u.payload.seiche, retrievedAt, p.maxAgeSeconds.seiche)
    ensures SeicheSection(u, r, p, requestHash, retrievedAt).facts.regime == Some(u.payload.seiche.regime)
  {
    assert u.Response? && u.payload.SeichePayload?;
    M.RiskAcceptedExactlyWhenReliable(u.payload.seiche, retrievedAt, p.maxAgeSeconds.seiche);
  }

  lemma CapsReachEveryVenue(x: U.Context, expected: U.ExitRequest, retrievedAt: Instant, maxAge: int, exitCost: real, spread: real)
    requires U.ContextOk(x, expected, retrievedAt, maxAge)
    requires x.measurement.worst.costBps <= exitCost && x.measurement.spreadBps <= spread
    ensures ExitWithinCaps(x.measurement, expected.size, exitCost, spread)
  {
    forall v, w
      ensures x.measurement.costsBps.Of(v) <= exitCost
      ensures Abs(x.measurement.costsBps.Of(v) - x.measurement.costsBps.Of(w)) <= spread + 0.000000000001
    {
      U.MeasurementBoundsEveryVenue(x.measurement, expected, x.peg.price, x.coverage, v, w);
    }
  }

  /** The policy an admitted request was judged by, when the verdict is PASS. */
  lemma PassReadsThroughPolicy(h: R.Hashing, c: G.Config, r: Request, p: Policy, startedAt: Instant, retrievedAt: Instant,
                               network: Product -> Answer)
    requires G.ConfigRefusal(c).None? && AdmitRefusal(h, c, r, p, startedAt).None?
    requires ValidEvidence(Assembled(r, p, h.request(r), retrievedAt, network))
    requires R.IssuedDecision(AssessInputs(h, r, p, retrievedAt, network)).outcome == Pass
    ensures p.maxExitCost.Some? && p.maxExitCost.value <= 50.0 && p.maxVenueSpread.Some? && p.maxVenueSpread.value <= 20.0
    ensures p.maxNotional.Some? && p.maxNotional.value <= 100000.0 && Stress in p.holdRegimes
    ensures var e := Assembled(r, p, h.request(r), retrievedAt, network);
            && Usable(e.seiche.state) && Usable(e.undertow.state)
            && !Held(e, p) && !OverLimit(r.order, e.undertow.facts, p)
  {
    var x := AssessInputs(h, r, p, retrievedAt, network);
    G.AdmittedStaysInsideHardEnvelope(c, p, h.policy(p));
    OutcomeMeaning(x.request, x.evidence, x.preview, x.policy, x.at, false);
    assert FitIn(Seiche, x.evidence, p.maxAgeSeconds, r.mode, retrievedAt);
    assert FitIn(Undertow, x.evidence, p.maxAgeSeconds, r.mode, retrievedAt);
  }

  /** The sale a request asks about: bitcoin for dollars, anywhere, of the request's own notional. */
  function SaleOf(r: Request, requestHash: string): U.ExitRequest {
    U.ExitRequest(requestHash, r.mode, "BTC/USD", "sell", None, r.order.notional)
  }

  /**
   * What stands behind a PASS: a plain sell, an exit within the caps, measured for this very request on data that is
   * approved and in force, and a regime that is read from a recent snapshot and not held.
   */
  ghost predicate SafeExit(r: Request, p: Policy, requestHash: string, at: Instant, risk: Answer, exit: Answer) {
    && PlainBitcoinSell(r)
    && p.maxExitCost.Some? && p.maxExitCost.value <= 50.0 && p.maxVenueSpread.Some? && p.maxVenueSpread.value <= 20.0
    && exit.Response? && exit.payload.UndertowPayload?
    && M.Reliable(exit.payload.undertow, SaleOf(r, requestHash), at, p.maxAgeSeconds.undertow)
    && ExitWithinCaps(exit.payload.undertow.measurement, r.order.notional, p.maxExitCost.value, p.maxVenueSpread.value)
    && risk.Response? && risk.payload.SeichePayload?
    && M.ReliableRisk(risk.payload.seiche, at, p.maxAgeSeconds.seiche)
    && risk.payload.seiche.regime !in p.holdRegimes && risk.payload.seiche.regime != Stress
  }

  lemma EligibleIsPlain(r: Request, facts: Facts, p: Policy)
    requires UndertowEligible(r) && p.maxNotional.Some? && p.maxNotional.value <= 100000.0 && !OverLimit(r.order, facts, p)
    ensures PlainBitcoinSell(r)
  {
  }

  lemma CapsHold(facts: Facts, order: Order, p: Policy, cost: real, spread: real)
    requires p.maxExitCost.Some? && p.maxVenueSpread.Some? && !OverLimit(order, facts, p)
    requires facts.worstSellCost == Num(cost) && facts.venueSpread == Num(spread) && cost >= 0.0 && spread >= 0.0
    ensures cost <= p.maxExitCost.value && spread <= p.maxVenueSpread.value
  {
  }

  lemma UndertowPart(u: Answer, r: Request, p: Policy, requestHash: string, at: Instant)
    requires p.maxExitCost.Some? && p.maxVenueSpread.Some?
    requires Usable(UndertowSection(u, r, p, requestHash, at).state)
    requires !OverLimit(r.order, UndertowSection(u, r, p, requestHash, at).facts, p)
    ensures UndertowEligible(r) && u.Response? && u.payload.UndertowPayload?
    ensures U.ContextOk(u.payload.undertow, ContractRequest(r, requestHash), at, p.maxAgeSeconds.undertow)
    ensures ExitWithinCaps(u.payload.undertow.measurement, ContractRequest(r, requestHash).size, p.maxExitCost.value, p.maxVenueSpread.value)
  {
    UsableUndertowMeans(u, r, p, requestHash, at);
    var x := u.payload.undertow;
    UndertowFactsAreValid(x, ContractRequest(r, requestHash), at, p.maxAgeSeconds.undertow);
    CapsHold(UndertowSection(u, r, p, requestHash, at).facts, r.order, p, x.measurement.worst.costBps, x.measurement.spreadBps);
    CapsReachEveryVenue(x, ContractRequest(r, requestHash), at, p.maxAgeSeconds.undertow, p.maxExitCost.value, p.maxVenueSpread.value);
  }

  lemma PassParts(r: Request, p: Policy, requestHash: string, at: Instant, network: Product -> Answer)
    requires p.maxExitCost.Some? && p.maxExitCost.value <= 50.0 && p.maxVenueSpread.Some? && p.maxVenueSpread.value <= 20.0
    requires p.maxNotional.Some? && p.maxNotional.value <= 100000.0 && Stress in p.holdRegimes
    requires var e := Assembled(r, p, requestHash, at, network);
             Usable(e.seiche.state) && Usable(e.undertow.state) && !Held(e, p) && !OverLimit(r.order, e.undertow.facts, p)
    ensures SafeExit(r, p, requestHash, at, network(Seiche), network(Undertow))
  {
    UndertowPart(network(Undertow), r, p, requestHash, at);
    M.AcceptedExactlyWhenReliable(network(Undertow).payload.undertow, ContractRequest(r, requestHash), at, p.maxAgeSeconds.undertow);
    UsableSeicheMeans(network(Seiche), r, p, requestHash, at);
    EligibleIsPlain(r, UndertowSection(network(Undertow), r, p, requestHash, at).facts, p);
  }

  /** The end-to-end meaning of a gateway PASS. */
  lemma PassMeaning(h: R.Hashing, c: G.Config, r: Request, p: Policy, startedAt: Instant, retrievedAt: Instant,
                    network: Product -> Answer)
    requires G.ConfigRefusal(c).None? && AdmitRefusal(h, c, r, p, startedAt).None?
    requires ValidEvidence(Assembled(r, p, h.request(r), retrievedAt, network))
    requires R.IssuedDecision(AssessInputs(h, r, p, retrievedAt, network)).outcome == Pass
    ensures SafeExit(r, p, h.request(r), retrievedAt, network(Seiche), network(Undertow))
  {
    PassReadsThroughPolicy(h, c, r, p, startedAt, retrievedAt, network);
    PassParts(r, p, h.request(r), retrievedAt, network);
  }

  /** A receipt that `Assess` hands out: if it says PASS, this is what it says of its own request, policy and time. */
  lemma ReceiptPassMeaning(h: R.Hashing, c: G.Config, r: Request, p: Policy, startedAt: Instant, retrievedAt: Instant,
                           network: Product -> Answer, receipt: R.Receipt)
    requires G.ConfigRefusal(c).None? && AdmitRefusal(h, c, r, p, startedAt).None?
    requires R.InputRefusal(h, AssessInputs(h, r, p, retrievedAt, network)).Ok?
    requires R.Binds(receipt, AssessInputs(h, r, p, retrievedAt, network)) && receipt.decision.outcome == Pass
    ensures SafeExit(receipt.request, receipt.policy, h.request(receipt.request), receipt.evaluatedAt, network(Seiche), network(Undertow))
  {
    PassMeaning(h, c, r, p, startedAt, retrievedAt, network);
  }
}
