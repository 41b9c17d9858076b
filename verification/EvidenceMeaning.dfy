/**
 * What a carrier discloses and what a brief says of it, read off the carrier's own fields: each reason with its
 * condition, the disposition, the view, and every section of a brief that is issued or accepted.
 */
module EvidenceMeaning {
  import opened Basics
  import opened ReasonLists
  import opened EvidenceCarrier
  import opened FleetBrief

  /** The condition of each reason code. */
  ghost predicate Holds(reason: Reason, m: Metadata, at: Instant) {
    match reason
    case NotYetKnown => at < m.clocks.knowledgeTime
    case AsOfInFuture => m.clocks.knowledgeTime <= at < m.clocks.asOf
    case RightsRestricted => m.rights.status == Restricted
    case RightsUnknown => m.rights.status == UnknownRights
    case RightsBlocked => m.rights.status == Blocked
    case RightsMetadataOnly => m.rights.status == MetadataOnlyRights
    case RedistributionNotPermitted =>
      m.rights.status in {Licensed, Allowed, MetadataOnlyRights} && Redistribute !in m.rights.permissions
    case LicenseMissing =>
      m.rights.status in {Licensed, Allowed} && m.rights.license == None && m.rights.licenseUrl == None
    case AttributionMissing => m.rights.status in {Licensed, Allowed} && m.rights.attribution == None
    case ClaimRestricted => m.claim == RestrictedClaim
    case ClaimUnavailable => m.claim == UnavailableClaim
    case EvidenceExpired => m.clocks.expiresAt.Some? && m.clocks.expiresAt.value <= at
    case CarrierMissing => false
  }

  const CLOCK_CATALOGUE := [NotYetKnown] + [AsOfInFuture]

  const RIGHTS_CATALOGUE := [RightsRestricted] + [RightsUnknown] + [RightsBlocked] + [RightsMetadataOnly]
                            + [RedistributionNotPermitted] + [LicenseMissing] + [AttributionMissing]

  const CLAIM_CATALOGUE := [ClaimRestricted] + [ClaimUnavailable] + [EvidenceExpired]

  /** Every reason code there is, in the order in which they are reported. */
  const CATALOGUE := CLOCK_CATALOGUE + RIGHTS_CATALOGUE + CLAIM_CATALOGUE

  ghost function Test(m: Metadata, at: Instant): Reason -> bool {
    (reason: Reason) => Holds(reason, m, at)
  }

  lemma ClockSelection(m: Metadata, at: Instant)
    ensures Kept(CLOCK_CATALOGUE, Test(m, at)) == ClockReasons(m, at) || m.clocks.asOf < m.clocks.knowledgeTime
  {
    KeptMore([], NotYetKnown, Test(m, at));
    assert [] + [NotYetKnown] == [NotYetKnown];
    KeptMore([NotYetKnown], AsOfInFuture, Test(m, at));
  }

  lemma RightsSelection(m: Metadata, at: Instant)
    ensures Kept(RIGHTS_CATALOGUE, Test(m, at)) == RightsReasons(m.rights)
  {
    KeptOfSeven(RightsRestricted, RightsUnknown, RightsBlocked, RightsMetadataOnly, RedistributionNotPermitted, LicenseMissing,
                AttributionMissing, Test(m, at));
  }

  lemma ClaimSelection(m: Metadata, at: Instant)
    ensures Kept(CLAIM_CATALOGUE, Test(m, at)) == ClaimReasons(m.claim) + When(ExpiredAt(m, at), EvidenceExpired)
  {
    KeptOfThree(ClaimRestricted, ClaimUnavailable, EvidenceExpired, Test(m, at));
  }

  /** The reasons given are those of the catalogue that hold, in its order. */
  lemma ReasonsAreTheCatalogue(m: Metadata, at: Instant)
    requires m.clocks.knowledgeTime <= m.clocks.asOf
    ensures ReasonsOf(m, at) == Kept(CATALOGUE, Test(m, at))
  {
    ClockSelection(m, at);
    RightsSelection(m, at);
    ClaimSelection(m, at);
    KeptBoth(CLOCK_CATALOGUE, RIGHTS_CATALOGUE, Test(m, at));
    KeptBoth(CLOCK_CATALOGUE + RIGHTS_CATALOGUE, CLAIM_CATALOGUE, Test(m, at));
    Associates(ClockReasons(m, at) + RightsReasons(m.rights), ClaimReasons(m.claim), When(ExpiredAt(m, at), EvidenceExpired));
  }

  lemma ReportedExactlyWhen(reason: Reason, m: Metadata, at: Instant)
    requires m.clocks.knowledgeTime <= m.clocks.asOf
    ensures reason in ReasonsOf(m, at) <==> Holds(reason, m, at)
  {
    ReasonsAreTheCatalogue(m, at);
    KeptExactlyWhen(reason, CATALOGUE, Test(m, at));
    assert reason == CarrierMissing || reason in CATALOGUE;
  }

  /** Rejected, in full, or by reference: each with its own condition on the carrier, the clock and the policy. */
  lemma DispositionExactlyWhen(m: Metadata, at: Instant, p: Policy)
    requires m.clocks.knowledgeTime <= m.clocks.asOf && p.Valid()
    ensures var d := DispositionOf(m, at, p);
            && (d == Reject <==>
                  || at < m.clocks.asOf || m.rights.status in {Restricted, UnknownRights, Blocked}
                  || (Redistribute !in m.rights.permissions && p.missingRedistribution == Reject)
                  || (m.clocks.expiresAt.Some? && m.clocks.expiresAt.value <= at && p.expired == Reject))
            && (d == Full <==>
                  && m.clocks.asOf <= at && (m.clocks.expiresAt.Some? ==> at < m.clocks.expiresAt.value)
                  && m.rights.status in {Licensed, Allowed} && Redistribute in m.rights.permissions
                  && (m.rights.license.Some? || m.rights.licenseUrl.Some?) && m.rights.attribution.Some?
                  && m.claim !in {RestrictedClaim, UnavailableClaim})
  {
  }

  // ----- carriers -----

  /** What every carrier must state of itself. */
  ghost predicate WellStated(m: Metadata) {
    && m.clocks.eventTime <= m.clocks.knowledgeTime <= m.clocks.asOf
    && (m.clocks.expiresAt.Some? ==> m.clocks.knowledgeTime < m.clocks.expiresAt.value)
    && |m.sources| > 0
    && (forall i, j :: 0 <= i < j < |m.sources| ==> m.sources[i].sourceId != m.sources[j].sourceId)
    && (forall s :: s in m.sources ==> m.clocks.eventTime <= s.retrievedAt <= m.clocks.knowledgeTime)
    && |m.rights.permissions| > 0
    && (forall i, j :: 0 <= i < j < |m.rights.permissions| ==> m.rights.permissions[i] != m.rights.permissions[j])
    && m.authority == Authority("none", false, false, false)
  }

  lemma ValidIsWellStated(m: Metadata)
    ensures ValidMetadata(m) <==> WellStated(m)
  {
    if WellStated(m) {
      assert forall i :: 0 <= i < |m.sources| ==> m.sources[i] in m.sources;
    }
  }

  /** A carrier whose identity is the digest of its own body. */
  ghost predicate Genuine(h: Hashing, c: Carrier) {
    && WellStated(c.body.meta) && c.recordHash == h.carrier(c.body)
    && |c.recordHash| == 64 && c.carrierId == "evidence_" + c.recordHash[..24]
  }

  /** A carrier verifies, at every clock, exactly when it is genuine, and the answer is about this carrier, clock and policy. */
  lemma VerifiedExactlyWhenGenuine(h: Hashing, c: Carrier, at: Instant, p: Policy)
    requires forall x :: IsDigest(h.carrier(x))
    ensures VerifyCarrier(h, c, at, p).Ok? <==> Genuine(h, c)
    ensures VerifyCarrier(h, c, at, p).Ok? ==>
              var v := VerifyCarrier(h, c, at, p).value;
              && v.carrier == c && v.policyVersion == p.version
              && v.disposition == DispositionOf(c.body.meta, at, p) && v.reasons == Kept(CATALOGUE, Test(c.body.meta, at))
  {
    ValidIsWellStated(c.body.meta);
    IdentityShapeOfDigest(ID_PREFIX, h.carrier(c.body));
    if WellStated(c.body.meta) {
      ReasonsAreTheCatalogue(c.body.meta, at);
    }
  }

  /** Nothing, the carrier itself, or its metadata without the payload. */
  lemma ViewExactly(h: Hashing, c: Carrier, at: Instant, p: Policy)
    requires VerifyCarrier(h, c, at, p).Ok?
    ensures var v := VerifyCarrier(h, c, at, p).value;
            ExportView(v) == match DispositionOf(c.body.meta, at, p)
                             case Reject => Withheld
                             case Full => Whole(c)
                             case MetadataOnly => ReferenceOnly(Reference(c.carrierId, c.recordHash, c.body.meta, false,
                                                                          ReasonsOf(c.body.meta, at), p.version))
  {
  }

  // ----- sections -----

  /** The section a genuine carrier of this producer gets. */
  ghost function SectionFor(p: Product, c: Carrier, at: Instant): Section {
    var m, reasons := c.body.meta, Kept(CATALOGUE, Test(c.body.meta, at));
    var reference := ReferenceOnly(Reference(c.carrierId, c.recordHash, m, false, reasons, "liquilens-evidence-export-strict-v1"));
    if at < m.clocks.asOf || m.rights.status in {Restricted, UnknownRights, Blocked} then
      Section(p, RejectedState, Some(c.carrierId), Some(c.recordHash), reasons, Withheld)
    else if reasons == [] then
      Section(p, FullState, Some(c.carrierId), Some(c.recordHash), [], Whole(c))
    else
      Section(p, if m.claim == UnavailableClaim then UnavailableState else MetadataOnlyState, Some(c.carrierId),
              Some(c.recordHash), reasons, reference)
  }

  lemma SectionExactly(h: BriefHashing, p: Product, supplied: Option<Carrier>, at: Instant)
    requires Digests(h)
    ensures var s := SectionFrom(h, p, supplied, at);
            match supplied
            case None => s == Ok(Section(p, MissingState, None, None, [CarrierMissing], Withheld))
            case Some(c) =>
              && (s.Ok? <==> Genuine(h.carriers, c) && c.body.meta.producer == p)
              && (s.Ok? ==> s.value == SectionFor(p, c, at))
              && (s == Err(CarrierInvalid(p)) <==> !Genuine(h.carriers, c))
              && (s == Err(ProducerMismatch(p)) <==> Genuine(h.carriers, c) && c.body.meta.producer != p)
  {
    if supplied.Some? {
      VerifiedExactlyWhenGenuine(h.carriers, supplied.value, at, STRICT);
      if Genuine(h.carriers, supplied.value) {
        GenuineSection(h, p, supplied.value, at);
      }
    }
  }

  lemma GenuineSection(h: BriefHashing, p: Product, c: Carrier, at: Instant)
    requires Digests(h) && Genuine(h.carriers, c)
    ensures VerifyCarrier(h.carriers, c, at, STRICT).Ok?
    ensures SectionOf(p, VerifyCarrier(h.carriers, c, at, STRICT).value) == SectionFor(p, c, at)
  {
    var m := c.body.meta;
    VerifiedExactlyWhenGenuine(h.carriers, c, at, STRICT);
    ValidIsWellStated(m);
    ReasonsAreTheCatalogue(m, at);
    StrictRejection(m, at);
    FullExactlyWhenNoReason(m, at, STRICT);
  }

  /** A brief can be issued exactly from genuine carriers, each under its own producer, no two with an id or a hash in common. */
  lemma IssuableExactlyWhen(h: BriefHashing, carriers: PerProduct<Option<Carrier>>, at: Instant)
    requires Digests(h)
    ensures Issuable(h, carriers, at) <==>
              && (forall p :: carriers.Of(p).Some? ==>
                    Genuine(h.carriers, carriers.Of(p).value) && carriers.Of(p).value.body.meta.producer == p)
              && (forall p, q :: p != q && carriers.Of(p).Some? && carriers.Of(q).Some? ==>
                    && carriers.Of(p).value.carrierId != carriers.Of(q).value.carrierId
                    && carriers.Of(p).value.recordHash != carriers.Of(q).value.recordHash)
  {
    forall p ensures SectionFrom(h, p, carriers.Of(p), at).Ok? <==>
                     (carriers.Of(p).Some? ==> Genuine(h.carriers, carriers.Of(p).value)
                                               && carriers.Of(p).value.body.meta.producer == p) {
      SectionExactly(h, p, carriers.Of(p), at);
    }
    DistinctExactlyWhen(carriers);
  }

  lemma DistinctExactlyWhen(carriers: PerProduct<Option<Carrier>>)
    ensures (forall p, q :: p != q ==> !SameCarrier(carriers, p, q))
            <==> forall p, q :: p != q && carriers.Of(p).Some? && carriers.Of(q).Some? ==>
                   && carriers.Of(p).value.carrierId != carriers.Of(q).value.carrierId
                   && carriers.Of(p).value.recordHash != carriers.Of(q).value.recordHash
  {
    forall p, q ensures SameCarrier(carriers, p, q) <==>
                        && carriers.Of(p).Some? && carriers.Of(q).Some?
                        && (carriers.Of(p).value.carrierId == carriers.Of(q).value.carrierId
                            || carriers.Of(p).value.recordHash == carriers.Of(q).value.recordHash) {
    }
  }

  // ----- accepted briefs -----

  ghost predicate IsIdentity(id: Option<string>, hash: Option<string>) {
    && id.Some? && hash.Some? && |id.value| == 33 && "evidence_" <= id.value && IsDigest(hash.value)
    && (forall i :: 9 <= i < 33 ==> IsLowerHex(id.value[i]))
  }

  /** What an accepted brief may hold for a producer, state by state. */
  ghost predicate Presentable(h: BriefHashing, p: Product, s: Section, at: Instant) {
    match s.state
    case MissingState => s == Section(p, MissingState, None, None, [CarrierMissing], Withheld)
    case RejectedState =>
      && s.product == p && s.evidence == Withheld && IsIdentity(s.carrierId, s.recordHash)
      && Distinct(s.reasons) && CarrierMissing !in s.reasons
      && (exists reason :: reason in s.reasons
                           && reason in {NotYetKnown, AsOfInFuture, RightsRestricted, RightsUnknown, RightsBlocked})
    case FullState =>
      && s.evidence.Whole? && Genuine(h.carriers, s.evidence.carrier) && s.evidence.carrier.body.meta.producer == p
      && s == SectionFor(p, s.evidence.carrier, at)
    case _ => s.evidence.ReferenceOnly? && Quotable(p, s.evidence.reference, at) && s == QuotedSection(p, s.evidence.reference)
  }

  /** Metadata that the strict policy lets through, without its payload, for the reasons that hold. */
  ghost predicate Quotable(p: Product, r: Reference, at: Instant) {
    && WellStated(r.meta) && r.meta.producer == p && IsIdentity(Some(r.carrierId), Some(r.recordHash))
    && !r.payloadDisclosed && r.policyVersion == "liquilens-evidence-export-strict-v1"
    && r.meta.clocks.asOf <= at && r.meta.rights.status !in {Restricted, UnknownRights, Blocked}
    && r.reasons == Kept(CATALOGUE, Test(r.meta, at)) && r.reasons != []
  }

  ghost function QuotedSection(p: Product, r: Reference): Section {
    Section(p, if r.meta.claim == UnavailableClaim then UnavailableState else MetadataOnlyState, Some(r.carrierId),
            Some(r.recordHash), r.reasons, ReferenceOnly(r))
  }

  lemma SomeRejection(reasons: seq<Reason>)
    ensures HasRejectionCode(reasons) <==>
              exists reason :: reason in reasons
                               && reason in {NotYetKnown, AsOfInFuture, RightsRestricted, RightsUnknown, RightsBlocked}
  {
    forall reason ensures RejectionCode(reason) <==>
                          reason in {NotYetKnown, AsOfInFuture, RightsRestricted, RightsUnknown, RightsBlocked} {
    }
    if HasRejectionCode(reasons) {
      var i :| 0 <= i < |reasons| && RejectionCode(reasons[i]);
      assert reasons[i] in reasons;
    }
  }

  /** A genuine carrier is whole in its section exactly when the verifier would disclose it in full. */
  lemma WholeExactlyWhenFull(h: BriefHashing, p: Product, c: Carrier, at: Instant)
    requires Digests(h) && Genuine(h.carriers, c)
    ensures VerifyCarrier(h.carriers, c, at, STRICT).Ok? && IdentityShape(ID_PREFIX, c.carrierId, c.recordHash)
    ensures VerifyCarrier(h.carriers, c, at, STRICT).value.disposition == Full <==>
              SectionFor(p, c, at) == Section(p, FullState, Some(c.carrierId), Some(c.recordHash), [], Whole(c))
    ensures SectionFor(p, c, at).state == FullState ==>
              SectionFor(p, c, at) == Section(p, FullState, Some(c.carrierId), Some(c.recordHash), [], Whole(c))
  {
    var m := c.body.meta;
    VerifiedExactlyWhenGenuine(h.carriers, c, at, STRICT);
    ValidIsWellStated(m);
    ReasonsAreTheCatalogue(m, at);
    FullExactlyWhenNoReason(m, at, STRICT);
    IdentityShapeOfDigest(ID_PREFIX, h.carriers.carrier(c.body));
  }

  lemma WholeOkExactlyWhen(h: BriefHashing, p: Product, c: Carrier, s: Section, at: Instant)
    requires Digests(h) && s.carrierId.Some? && s.recordHash.Some?
    ensures WholeOk(h, c, p, s, at) <==>
              && Genuine(h.carriers, c) && c.body.meta.producer == p
              && SectionFor(p, c, at) == Section(p, FullState, s.carrierId, s.recordHash, [], Whole(c))
  {
    VerifiedExactlyWhenGenuine(h.carriers, c, at, STRICT);
    if Genuine(h.carriers, c) {
      WholeExactlyWhenFull(h, p, c, at);
    }
  }

  lemma FullPresentable(h: BriefHashing, p: Product, s: Section, at: Instant)
    requires Digests(h) && s.state == FullState
    ensures SectionOk(h, p, s, at) <==> Presentable(h, p, s, at)
  {
    if s.evidence.Whole? && s.carrierId.Some? && s.recordHash.Some? {
      var c := s.evidence.carrier;
      WholeOkExactlyWhen(h, p, c, s, at);
      if Genuine(h.carriers, c) {
        WholeExactlyWhenFull(h, p, c, at);
      }
    }
  }

  lemma MetadataExactlyWhen(m: Metadata, at: Instant)
    requires WellStated(m)
    ensures !RightsRejected(m.rights.status) && DispositionOf(m, at, STRICT) == MetadataOnly <==>
              && m.clocks.asOf <= at && m.rights.status !in {Restricted, UnknownRights, Blocked}
              && Kept(CATALOGUE, Test(m, at)) != []
    ensures ReasonsOf(m, at) == Kept(CATALOGUE, Test(m, at)) && Distinct(ReasonsOf(m, at))
  {
    ValidIsWellStated(m);
    ReasonsAreTheCatalogue(m, at);
    VerdictIsCoherent(m, at);
    StrictRejection(m, at);
  }

  lemma ReferencePresentable(h: BriefHashing, p: Product, s: Section, at: Instant)
    requires s.state == MetadataOnlyState || s.state == UnavailableState
    ensures SectionOk(h, p, s, at) <==> Presentable(h, p, s, at)
  {
    if s.evidence.ReferenceOnly? {
      var r := s.evidence.reference;
      ValidIsWellStated(r.meta);
      if WellStated(r.meta) {
        MetadataExactlyWhen(r.meta, at);
      }
    }
  }

  lemma SectionOkExactlyWhenPresentable(h: BriefHashing, p: Product, s: Section, at: Instant)
    requires Digests(h)
    ensures SectionOk(h, p, s, at) <==> Presentable(h, p, s, at)
  {
    match s.state
    case MissingState =>
    case RejectedState => SomeRejection(s.reasons);
    case FullState => FullPresentable(h, p, s, at);
    case _ => ReferencePresentable(h, p, s, at);
  }

  /** A brief is accepted at a clock exactly when it was evaluated at that clock, hashes to its identity, widens no
      authority, and holds one presentable section for each producer, no two naming the same carrier. */
  lemma BriefAcceptedExactlyWhen(h: BriefHashing, b: Brief, at: Instant)
    requires Digests(h)
    ensures BriefOk(h, b, at) <==>
              && b.body.evaluatedAt == at && b.body.authority == Authority("none", false, false, false)
              && b.recordHash == h.brief(b.body) && b.briefId == "fleet_brief_" + h.brief(b.body)[..24]
              && (forall p :: Presentable(h, p, b.body.sections.Of(p), at))
              && (forall p, q :: p != q && b.body.sections.Of(p).carrierId.Some? && b.body.sections.Of(q).carrierId.Some? ==>
                    && b.body.sections.Of(p).carrierId != b.body.sections.Of(q).carrierId
                    && b.body.sections.Of(p).recordHash != b.body.sections.Of(q).recordHash)
  {
    IdentityShapeOfDigest(BRIEF_PREFIX, h.brief(b.body));
    NoClashByProduct(b.body.sections);
    forall p ensures SectionOk(h, p, b.body.sections.Of(p), at) <==> Presentable(h, p, b.body.sections.Of(p), at) {
      SectionOkExactlyWhenPresentable(h, p, b.body.sections.Of(p), at);
    }
    EverySectionOk(h, b.body.sections, at);
  }

  lemma EverySectionOk(h: BriefHashing, sections: PerProduct<Section>, at: Instant)
    ensures (forall i :: 0 <= i < |PRODUCTS| ==> SectionOk(h, PRODUCTS[i], sections.Of(PRODUCTS[i]), at))
            <==> forall p :: SectionOk(h, p, sections.Of(p), at)
  {
    if forall i :: 0 <= i < |PRODUCTS| ==> SectionOk(h, PRODUCTS[i], sections.Of(PRODUCTS[i]), at) {
      forall p ensures SectionOk(h, p, sections.Of(p), at) {
        var k := AllProducts(p);
      }
    }
  }
}
