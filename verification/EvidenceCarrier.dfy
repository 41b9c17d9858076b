/** Evidence carriers: what one may disclose at a clock under a policy, and issuing and verifying their identity. */
module EvidenceCarrier {
  import opened Basics
  import opened ReasonLists

  datatype Product = LiquiLens | Seiche | Undertow | Palimpsest

  datatype ClaimStatus = Observed | Derived | Structural | Research | RestrictedClaim | UnavailableClaim

  datatype RightsStatus = Licensed | Allowed | MetadataOnlyRights | Restricted | UnknownRights | Blocked

  datatype Permission = Ingest | DeriveFrom | Display | Redistribute

  datatype Rights = Rights(status: RightsStatus, permissions: seq<Permission>, license: Option<string>,
                           licenseUrl: Option<string>, attribution: Option<string>)

  datatype Clocks = Clocks(eventTime: Instant, knowledgeTime: Instant, asOf: Instant, expiresAt: Option<Instant>)

  datatype Source = Source(sourceId: string, title: string, retrievedAt: Instant)

  datatype Authority = Authority(financialAuthority: string, canExecute: bool, canRecommend: bool, isCreditRating: bool)

  const BOUNDARY := Authority("none", false, false, false)

  /** Everything a reference to a carrier keeps. */
  datatype Metadata = Metadata(producer: Product, subject: string, claim: ClaimStatus, clocks: Clocks,
                               sources: seq<Source>, rights: Rights, authority: Authority)

  datatype Body = Body(meta: Metadata, payload: string, extensions: string)

  datatype Carrier = Carrier(carrierId: string, recordHash: string, body: Body)

  datatype Disposition = Full | MetadataOnly | Reject

  datatype Reason =
    | NotYetKnown | AsOfInFuture | RightsRestricted | RightsUnknown | RightsBlocked | RightsMetadataOnly
    | RedistributionNotPermitted | LicenseMissing | AttributionMissing | ClaimRestricted | ClaimUnavailable
    | EvidenceExpired | CarrierMissing

  /** A disclosure policy can never show expired or non-redistributable payloads in full. */
  datatype Policy = Policy(version: string, expired: Disposition, missingRedistribution: Disposition) {
    predicate Valid() {
      expired != Full && missingRedistribution != Full
    }
  }

  const STRICT := Policy("liquilens-evidence-export-strict-v1", MetadataOnly, MetadataOnly)

  function Rank(d: Disposition): nat {
    match d
    case Full => 0
    case MetadataOnly => 1
    case Reject => 2
  }

  function MoreRestrictive(current: Disposition, candidate: Disposition): (d: Disposition)
    ensures Rank(d) >= Rank(current) && Rank(d) >= Rank(candidate) && (d == current || d == candidate)
  {
    if Rank(candidate) > Rank(current) then candidate else current
  }

  // ----- shape -----

  predicate UniqueSources(sources: seq<Source>) {
    forall i, j :: 0 <= i < j < |sources| ==> sources[i].sourceId != sources[j].sourceId
  }

  predicate ValidMetadata(m: Metadata) {
    var c := m.clocks;
    && c.eventTime <= c.knowledgeTime <= c.asOf
    && (c.expiresAt.Some? ==> c.expiresAt.value > c.knowledgeTime)
    && m.sources != [] && UniqueSources(m.sources)
    && (forall i :: 0 <= i < |m.sources| ==> c.eventTime <= m.sources[i].retrievedAt <= c.knowledgeTime)
    && m.rights.permissions != [] && Distinct(m.rights.permissions)
    && m.authority == BOUNDARY
  }

  /** The source check as the loop it is: ids collected in a set, each retrieval between event and knowledge. */
  method CheckSources(sources: seq<Source>, c: Clocks) returns (ok: bool)
    ensures ok <==> UniqueSources(sources)
                    && forall i :: 0 <= i < |sources| ==> c.eventTime <= sources[i].retrievedAt <= c.knowledgeTime
  {
    var ids: set<string> := {};
    var k := 0;
    while k < |sources|
      invariant 0 <= k <= |sources|
      invariant UniqueSources(sources[..k])
      invariant forall i :: 0 <= i < k ==> c.eventTime <= sources[i].retrievedAt <= c.knowledgeTime
      invariant forall id :: id in ids <==> exists i :: 0 <= i < k && sources[i].sourceId == id
    {
      var source := sources[k];
      if source.sourceId in ids {
        return false;
      }
      ids := ids + {source.sourceId};
      if source.retrievedAt < c.eventTime || source.retrievedAt > c.knowledgeTime {
        return false;
      }
      k := k + 1;
    }
    assert sources[..k] == sources;
    return true;
  }

  // ----- disclosure -----

  predicate RightsRejected(s: RightsStatus) {
    s == Restricted || s == UnknownRights || s == Blocked
  }

  function RejectedRightsReason(s: RightsStatus): Reason {
    if s == Restricted then RightsRestricted else if s == UnknownRights then RightsUnknown else RightsBlocked
  }

  predicate Unlicensed(r: Rights) {
    (r.status == Licensed || r.status == Allowed) && r.license.None? && r.licenseUrl.None?
  }

  predicate Unattributed(r: Rights) {
    (r.status == Licensed || r.status == Allowed) && r.attribution.None?
  }

  predicate ExpiredAt(m: Metadata, at: Instant) {
    m.clocks.expiresAt.Some? && m.clocks.expiresAt.value <= at
  }

  predicate ClaimWithheld(c: ClaimStatus) {
    c == RestrictedClaim || c == UnavailableClaim
  }

  /** The disclosure as the strictest of independent findings. */
  function DispositionOf(m: Metadata, at: Instant, p: Policy): Disposition {
    var r := m.rights;
    if at < m.clocks.knowledgeTime || at < m.clocks.asOf || RightsRejected(r.status) then Reject
    else
      var redistribution := if Redistribute !in r.permissions then p.missingRedistribution else Full;
      var expiry := if ExpiredAt(m, at) then p.expired else Full;
      var rest := if r.status == MetadataOnlyRights || Unlicensed(r) || Unattributed(r) || ClaimWithheld(m.claim)
                  then MetadataOnly else Full;
      MoreRestrictive(MoreRestrictive(redistribution, expiry), rest)
  }

  function ClockReasons(m: Metadata, at: Instant): seq<Reason> {
    if at < m.clocks.knowledgeTime then [NotYetKnown]
    else if at < m.clocks.asOf then [AsOfInFuture]
    else []
  }

  function RightsReasons(r: Rights): seq<Reason> {
    if RightsRejected(r.status) then [RejectedRightsReason(r.status)]
    else
      When(r.status == MetadataOnlyRights, RightsMetadataOnly)
      + When(Redistribute !in r.permissions, RedistributionNotPermitted)
      + When(Unlicensed(r), LicenseMissing)
      + When(Unattributed(r), AttributionMissing)
  }

  function ClaimReasons(c: ClaimStatus): seq<Reason> {
    if c == RestrictedClaim then [ClaimRestricted] else if c == UnavailableClaim then [ClaimUnavailable] else []
  }

  function ReasonsOf(m: Metadata, at: Instant): seq<Reason> {
    ClockReasons(m, at) + RightsReasons(m.rights) + ClaimReasons(m.claim) + When(ExpiredAt(m, at), EvidenceExpired)
  }

  /** The evaluator, tightening one disposition step by step, agrees with the strictest-finding reading. */
  method EvaluateDisclosure(m: Metadata, at: Instant, p: Policy) returns (d: Disposition, reasons: seq<Reason>)
    ensures d == DispositionOf(m, at, p)
    ensures reasons == ReasonsOf(m, at)
  {
    d, reasons := Full, [];
    if at < m.clocks.knowledgeTime {
      d := MoreRestrictive(d, Reject);
      reasons := reasons + [NotYetKnown];
    } else if at < m.clocks.asOf {
      d := MoreRestrictive(d, Reject);
      reasons := reasons + [AsOfInFuture];
    }
    assert reasons == ClockReasons(m, at);
    var rights: seq<Reason>;
    d, rights := EvaluateRights(d, m.rights, p);
    reasons := reasons + rights;
    if ClaimWithheld(m.claim) {
      d := MoreRestrictive(d, MetadataOnly);
      reasons := reasons + [if m.claim == RestrictedClaim then ClaimRestricted else ClaimUnavailable];
    }
    assert reasons == ClockReasons(m, at) + RightsReasons(m.rights) + ClaimReasons(m.claim);
    if ExpiredAt(m, at) {
      d := MoreRestrictive(d, p.expired);
      reasons := reasons + [EvidenceExpired];
    }
  }

  method EvaluateRights(before: Disposition, r: Rights, p: Policy) returns (d: Disposition, reasons: seq<Reason>)
    ensures reasons == RightsReasons(r)
    ensures d == if RightsRejected(r.status) then Reject
                 else MoreRestrictive(MoreRestrictive(before, if Redistribute !in r.permissions then p.missingRedistribution else Full),
                                      if r.status == MetadataOnlyRights || Unlicensed(r) || Unattributed(r) then MetadataOnly else Full)
  {
    d, reasons := before, [];
    if RightsRejected(r.status) {
      d := MoreRestrictive(d, Reject);
      reasons := [RejectedRightsReason(r.status)];
      return;
    }
    if r.status == MetadataOnlyRights {
      d := MoreRestrictive(d, MetadataOnly);
      reasons := reasons + [RightsMetadataOnly];
    }
    if Redistribute !in r.permissions {
      d := MoreRestrictive(d, p.missingRedistribution);
      reasons := reasons + [RedistributionNotPermitted];
    }
    if r.status == Licensed || r.status == Allowed {
      if r.license.None? && r.licenseUrl.None? {
        d := MoreRestrictive(d, MetadataOnly);
        reasons := reasons + [LicenseMissing];
      }
      if r.attribution.None? {
        d := MoreRestrictive(d, MetadataOnly);
        reasons := reasons + [AttributionMissing];
      }
    }
  }

  /** Payload is shown exactly in this case. */
  predicate FullyDisclosable(m: Metadata, at: Instant) {
    && m.clocks.asOf <= at && (m.clocks.expiresAt.Some? ==> at < m.clocks.expiresAt.value)
    && (m.rights.status == Licensed || m.rights.status == Allowed)
    && Redistribute in m.rights.permissions
    && (m.rights.license.Some? || m.rights.licenseUrl.Some?) && m.rights.attribution.Some?
    && !ClaimWithheld(m.claim)
  }

  /** Full disclosure needs every condition, and a decision is full exactly when it comes without a reason. */
  lemma FullExactlyWhenNoReason(m: Metadata, at: Instant, p: Policy)
    requires ValidMetadata(m) && p.Valid()
    ensures DispositionOf(m, at, p) == Full <==> FullyDisclosable(m, at)
    ensures DispositionOf(m, at, p) == Full <==> ReasonsOf(m, at) == []
  {
  }

  /** Before its as-of time a carrier is rejected; from then on its disclosure only ever tightens. */
  lemma DisclosureNeverLoosens(m: Metadata, p: Policy, at: Instant, later: Instant)
    requires ValidMetadata(m) && p.Valid() && at <= later
    ensures at < m.clocks.asOf ==> DispositionOf(m, at, p) == Reject
    ensures m.clocks.asOf <= at ==> Rank(DispositionOf(m, at, p)) <= Rank(DispositionOf(m, later, p))
  {
  }

  function RankOfReason(r: Reason): nat {
    match r
    case NotYetKnown => 0
    case AsOfInFuture => 1
    case RightsRestricted => 2
    case RightsUnknown => 3
    case RightsBlocked => 4
    case RightsMetadataOnly => 5
    case RedistributionNotPermitted => 6
    case LicenseMissing => 7
    case AttributionMissing => 8
    case ClaimRestricted => 9
    case ClaimUnavailable => 10
    case EvidenceExpired => 11
    case CarrierMissing => 12
  }

  lemma FourReasonsAscend(a: bool, b: bool, c: bool, d: bool)
    ensures Ascending(When(a, RightsMetadataOnly) + When(b, RedistributionNotPermitted) + When(c, LicenseMissing)
                      + When(d, AttributionMissing), RankOfReason, 2, 9)
  {
    var t := When(a, RightsMetadataOnly);
    AscendingAppend(t, RankOfReason, b, RedistributionNotPermitted, 2);
    AscendingAppend(t + When(b, RedistributionNotPermitted), RankOfReason, c, LicenseMissing, 2);
    AscendingAppend(t + When(b, RedistributionNotPermitted) + When(c, LicenseMissing), RankOfReason, d, AttributionMissing, 2);
  }

  lemma RightsReasonsAscend(r: Rights)
    ensures Ascending(RightsReasons(r), RankOfReason, 2, 9)
  {
    FourReasonsAscend(r.status == MetadataOnlyRights, Redistribute !in r.permissions, Unlicensed(r), Unattributed(r));
  }

  /** Reasons are distinct and are policy codes, so removing duplicates never removes anything. */
  lemma ReasonsAreDistinctCodes(m: Metadata, at: Instant)
    ensures Ascending(ReasonsOf(m, at), RankOfReason, 0, 12)
  {
    RightsReasonsAscend(m.rights);
    AscendingConcatenation(ClockReasons(m, at), RightsReasons(m.rights), RankOfReason, 0, 2, 9);
    AscendingConcatenation(ClockReasons(m, at) + RightsReasons(m.rights), ClaimReasons(m.claim), RankOfReason, 0, 9, 11);
    AscendingConcatenation(ClockReasons(m, at) + RightsReasons(m.rights) + ClaimReasons(m.claim),
                           When(ExpiredAt(m, at), EvidenceExpired), RankOfReason, 0, 11, 12);
  }

  /** The reasons that by themselves mean rejection. */
  predicate RejectionCode(r: Reason) {
    RankOfReason(r) < 5
  }

  predicate HasRejectionCode(reasons: seq<Reason>) {
    exists i :: 0 <= i < |reasons| && RejectionCode(reasons[i])
  }

  lemma RejectionCodeOfConcatenation(xs: seq<Reason>, ys: seq<Reason>)
    ensures HasRejectionCode(xs + ys) <==> HasRejectionCode(xs) || HasRejectionCode(ys)
  {
    if HasRejectionCode(xs) {
      var i :| 0 <= i < |xs| && RejectionCode(xs[i]);
      assert RejectionCode((xs + ys)[i]);
    }
    if HasRejectionCode(ys) {
      var i :| 0 <= i < |ys| && RejectionCode(ys[i]);
      assert RejectionCode((xs + ys)[|xs| + i]);
    }
  }

  lemma RightsCodes(r: Rights)
    ensures HasRejectionCode(RightsReasons(r)) <==> RightsRejected(r.status)
  {
    if RightsRejected(r.status) {
      assert RejectionCode(RightsReasons(r)[0]);
    } else {
      var a, b, c, d := When(r.status == MetadataOnlyRights, RightsMetadataOnly),
                        When(Redistribute !in r.permissions, RedistributionNotPermitted),
                        When(Unlicensed(r), LicenseMissing), When(Unattributed(r), AttributionMissing);
      RejectionCodeOfConcatenation(a, b);
      RejectionCodeOfConcatenation(a + b, c);
      RejectionCodeOfConcatenation(a + b + c, d);
    }
  }

  lemma ClockCodes(m: Metadata, at: Instant)
    requires ValidMetadata(m)
    ensures HasRejectionCode(ClockReasons(m, at)) <==> at < m.clocks.asOf
  {
    if at < m.clocks.asOf {
      assert RejectionCode(ClockReasons(m, at)[0]);
    }
  }

  /** Under the strict policy a rejection is recognisable from the reasons alone. */
  lemma StrictRejectionShowsInReasons(m: Metadata, at: Instant)
    requires ValidMetadata(m)
    ensures DispositionOf(m, at, STRICT) == Reject <==> HasRejectionCode(ReasonsOf(m, at))
  {
    var clock, rights, claim := ClockReasons(m, at), RightsReasons(m.rights), ClaimReasons(m.claim);
    RejectionCodeOfConcatenation(clock, rights);
    RejectionCodeOfConcatenation(clock + rights, claim);
    RejectionCodeOfConcatenation(clock + rights + claim, When(ExpiredAt(m, at), EvidenceExpired));
    ClockCodes(m, at);
    RightsCodes(m.rights);
    assert !HasRejectionCode(claim) && !HasRejectionCode(When(ExpiredAt(m, at), EvidenceExpired));
    StrictRejection(m, at);
  }

  lemma StrictRejection(m: Metadata, at: Instant)
    requires ValidMetadata(m)
    ensures DispositionOf(m, at, STRICT) == Reject <==> at < m.clocks.asOf || RightsRejected(m.rights.status)
  {
  }

  // ----- identity -----

  datatype Hashing = Hashing(carrier: Body -> string)

  const ID_PREFIX := "evidence_"

  function IdOf(digest: string): string {
    IdFrom(ID_PREFIX, digest)
  }

  predicate ValidShape(c: Carrier) {
    IdentityShape(ID_PREFIX, c.carrierId, c.recordHash) && ValidMetadata(c.body.meta)
  }

  datatype CarrierError = Malformed | HashMismatch | IdMismatch

  datatype Verified = Verified(carrier: Carrier, disposition: Disposition, reasons: seq<Reason>, policyVersion: string)

  function VerifyCarrier(h: Hashing, c: Carrier, at: Instant, p: Policy): Result<Verified, CarrierError> {
    if !ValidShape(c) then Err(Malformed)
    else if c.recordHash != h.carrier(c.body) then Err(HashMismatch)
    else if c.carrierId != IdOf(h.carrier(c.body)) then Err(IdMismatch)
    else Ok(Verified(c, DispositionOf(c.body.meta, at, p), ReasonsOf(c.body.meta, at), p.version))
  }

  method IssueCarrier(h: Hashing, body: Body) returns (c: Result<Carrier, CarrierError>)
    requires forall x :: IsDigest(h.carrier(x))
    ensures c.Ok? <==> ValidMetadata(body.meta)
    ensures c.Ok? ==> c.value.body == body
    ensures c.Ok? ==> forall at, p :: VerifyCarrier(h, c.value, at, p).Ok?
  {
    if !ValidMetadata(body.meta) {
      return Err(Malformed);
    }
    var digest := h.carrier(body);
    var carrier := Carrier(IdOf(digest), digest, body);
    IdentityShapeOfDigest(ID_PREFIX, digest);
    return Ok(carrier);
  }

  // ----- export -----

  datatype Reference = Reference(carrierId: string, recordHash: string, meta: Metadata, payloadDisclosed: bool,
                                 reasons: seq<Reason>, policyVersion: string)

  datatype View = Withheld | Whole(carrier: Carrier) | ReferenceOnly(reference: Reference)

  /** The most a verified carrier may show; rejected carriers raise instead of showing anything. */
  function ExportView(v: Verified): View {
    match v.disposition
    case Reject => Withheld
    case Full => Whole(v.carrier)
    case MetadataOnly =>
      ReferenceOnly(Reference(v.carrier.carrierId, v.carrier.recordHash, v.carrier.body.meta, false, v.reasons, v.policyVersion))
  }

  /** No view ever shows a payload before its as-of time or after its expiry, and none reappears. */
  lemma PayloadWindow(h: Hashing, c: Carrier, p: Policy, at: Instant, later: Instant)
    requires p.Valid() && at <= later && VerifyCarrier(h, c, at, p).Ok? && VerifyCarrier(h, c, later, p).Ok?
    ensures var now, afterwards := ExportView(VerifyCarrier(h, c, at, p).value), ExportView(VerifyCarrier(h, c, later, p).value);
            && (now.Whole? ==> c.body.meta.clocks.asOf <= at && !ExpiredAt(c.body.meta, at))
            && (afterwards.Whole? && c.body.meta.clocks.asOf <= at ==> now.Whole?)
  {
    FullExactlyWhenNoReason(c.body.meta, at, p);
    DisclosureNeverLoosens(c.body.meta, p, at, later);
  }
}
