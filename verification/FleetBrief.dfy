/** Fleet briefs: one section per producer, issued and verified by independent code that must agree. */
module FleetBrief {
  import opened Basics
  import opened ReasonLists
  import opened EvidenceCarrier

  datatype SectionState = FullState | MetadataOnlyState | UnavailableState | RejectedState | MissingState

  datatype Section = Section(product: Product, state: SectionState, carrierId: Option<string>, recordHash: Option<string>,
                             reasons: seq<Reason>, evidence: View)

  datatype PerProduct<+T> = PerProduct(liquilens: T, seiche: T, undertow: T, palimpsest: T) {
    function Of(p: Product): T {
      match p
      case LiquiLens => liquilens
      case Seiche => seiche
      case Undertow => undertow
      case Palimpsest => palimpsest
    }
  }

  const PRODUCTS: seq<Product> := [LiquiLens, Seiche, Undertow, Palimpsest]

  datatype BriefBody = BriefBody(evaluatedAt: Instant, sections: PerProduct<Section>, authority: Authority)

  datatype Brief = Brief(briefId: string, recordHash: string, body: BriefBody)

  const BRIEF_PREFIX := "fleet_brief_"

  datatype BriefHashing = BriefHashing(carriers: Hashing, brief: BriefBody -> string)

  ghost predicate Digests(h: BriefHashing) {
    (forall x :: IsDigest(h.carriers.carrier(x))) && (forall x :: IsDigest(h.brief(x)))
  }

  datatype BriefError =
    | CarrierInvalid(product: Product) | ProducerMismatch(product: Product) | DuplicateCarrier
    | Malformed | ClockMismatch | AuthorityWidened | BadSection(product: Product) | HashMismatch | IdMismatch

  // ----- issuing -----

  function MissingSection(p: Product): Section {
    Section(p, MissingState, None, None, [CarrierMissing], Withheld)
  }

  function StateOf(v: Verified): SectionState {
    if v.disposition == Reject then RejectedState
    else if v.carrier.body.meta.claim == UnavailableClaim then UnavailableState
    else if v.disposition == MetadataOnly then MetadataOnlyState
    else FullState
  }

  function SectionOf(p: Product, v: Verified): Section {
    Section(p, StateOf(v), Some(v.carrier.carrierId), Some(v.carrier.recordHash), v.reasons, ExportView(v))
  }

  /** The section for what was supplied, which must verify under the strict policy and come from its producer. */
  function SectionFrom(h: BriefHashing, p: Product, supplied: Option<Carrier>, at: Instant): Result<Section, BriefError> {
    if supplied.None? then Ok(MissingSection(p))
    else
      var v := VerifyCarrier(h.carriers, supplied.value, at, STRICT);
      if v.Err? then Err(CarrierInvalid(p))
      else if supplied.value.body.meta.producer != p then Err(ProducerMismatch(p))
      else Ok(SectionOf(p, v.value))
  }

  // ----- verifying one section -----

  /** A reference may stand in for a carrier only when the strict policy says metadata, for the same reasons. */
  predicate ReferenceOk(r: Reference, p: Product, s: Section, at: Instant) {
    && !r.payloadDisclosed && r.policyVersion == STRICT.version
    && r.reasons != [] && Distinct(r.reasons) && r.reasons == s.reasons
    && IdentityShape(ID_PREFIX, r.carrierId, r.recordHash) && ValidMetadata(r.meta)
    && r.meta.producer == p && !RightsRejected(r.meta.rights.status)
    && DispositionOf(r.meta, at, STRICT) == MetadataOnly && r.reasons == ReasonsOf(r.meta, at)
    && (s.state == UnavailableState <==> r.meta.claim == UnavailableClaim)
    && s.carrierId == Some(r.carrierId) && s.recordHash == Some(r.recordHash)
  }

  predicate WholeOk(h: BriefHashing, c: Carrier, p: Product, s: Section, at: Instant) {
    var v := VerifyCarrier(h.carriers, c, at, STRICT);
    && v.Ok? && v.value.disposition == Full && c.body.meta.producer == p
    && s.carrierId == Some(c.carrierId) && s.recordHash == Some(c.recordHash)
  }

  predicate SectionOk(h: BriefHashing, p: Product, s: Section, at: Instant) {
    && s.product == p && Distinct(s.reasons) && (s.reasons == [] ==> s.state == FullState)
    && (if s.state == MissingState then
          s.carrierId.None? && s.recordHash.None? && s.evidence.Withheld? && s.reasons == [CarrierMissing]
        else
          && s.carrierId.Some? && s.recordHash.Some?
          && IdentityShape(ID_PREFIX, s.carrierId.value, s.recordHash.value)
          && (if s.state == RejectedState then
                s.evidence.Withheld? && CarrierMissing !in s.reasons && HasRejectionCode(s.reasons)
              else if s.state == FullState then
                s.reasons == [] && s.evidence.Whole? && WholeOk(h, s.evidence.carrier, p, s, at)
              else s.evidence.ReferenceOnly? && ReferenceOk(s.evidence.reference, p, s, at)))
  }

  // ----- verifying a brief -----

  datatype Identity = Identity(id: string, hash: string)

  function IdentityOf(s: Section): Option<Identity> {
    if s.carrierId.Some? && s.recordHash.Some? then Some(Identity(s.carrierId.value, s.recordHash.value)) else None
  }

  /** The same carrier, by id or by hash. */
  predicate Clash(x: Option<Identity>, y: Option<Identity>) {
    x.Some? && y.Some? && (x.value.id == y.value.id || x.value.hash == y.value.hash)
  }

  function Identities(sections: PerProduct<Section>): (xs: seq<Option<Identity>>)
    ensures |xs| == |PRODUCTS|
  {
    seq(|PRODUCTS|, i requires 0 <= i < |PRODUCTS| => IdentityOf(sections.Of(PRODUCTS[i])))
  }

  function IdsOf(xs: seq<Option<Identity>>): set<string> {
    if xs == [] then {}
    else
      var x := xs[|xs| - 1];
      IdsOf(xs[..|xs| - 1]) + (if x.Some? then {x.value.id} else {})
  }

  function HashesOf(xs: seq<Option<Identity>>): set<string> {
    if xs == [] then {}
    else
      var x := xs[|xs| - 1];
      HashesOf(xs[..|xs| - 1]) + (if x.Some? then {x.value.hash} else {})
  }

  /** Each identity is new when it comes up. */
  predicate NoClash(xs: seq<Option<Identity>>) {
    xs == []
    || (var x, before := xs[|xs| - 1], xs[..|xs| - 1];
        NoClash(before) && (x.Some? ==> x.value.id !in IdsOf(before) && x.value.hash !in HashesOf(before)))
  }

  lemma {:induction false} EarlierIdentityIsKept(xs: seq<Option<Identity>>, i: nat)
    requires i < |xs| && xs[i].Some?
    ensures xs[i].value.id in IdsOf(xs) && xs[i].value.hash in HashesOf(xs)
    decreases |xs|
  {
    if i < |xs| - 1 {
      EarlierIdentityIsKept(xs[..|xs| - 1], i);
    }
  }

  lemma {:induction false} KeptIdIsEarlier(xs: seq<Option<Identity>>, id: string) returns (i: nat)
    requires id in IdsOf(xs)
    ensures i < |xs| && xs[i].Some? && xs[i].value.id == id
    decreases |xs|
  {
    i := |xs| - 1;
    if id in IdsOf(xs[..|xs| - 1]) {
      i := KeptIdIsEarlier(xs[..|xs| - 1], id);
    }
  }

  lemma {:induction false} KeptHashIsEarlier(xs: seq<Option<Identity>>, hash: string) returns (i: nat)
    requires hash in HashesOf(xs)
    ensures i < |xs| && xs[i].Some? && xs[i].value.hash == hash
    decreases |xs|
  {
    i := |xs| - 1;
    if hash in HashesOf(xs[..|xs| - 1]) {
      i := KeptHashIsEarlier(xs[..|xs| - 1], hash);
    }
  }

  /** Checking each identity against those before it compares every pair. */
  lemma {:induction false} NoClashIsPairwise(xs: seq<Option<Identity>>)
    ensures NoClash(xs) <==> forall i, j :: 0 <= i < j < |xs| ==> !Clash(xs[i], xs[j])
    decreases |xs|
  {
    if xs != [] {
      var n := |xs| - 1;
      NoClashIsPairwise(xs[..n]);
      if xs[n].Some? {
        forall i | 0 <= i < n && Clash(xs[i], xs[n]) ensures !NoClash(xs) {
          EarlierIdentityIsKept(xs[..n], i);
        }
        if xs[n].value.id in IdsOf(xs[..n]) {
          var i := KeptIdIsEarlier(xs[..n], xs[n].value.id);
          assert Clash(xs[i], xs[n]);
        } else if xs[n].value.hash in HashesOf(xs[..n]) {
          var i := KeptHashIsEarlier(xs[..n], xs[n].value.hash);
          assert Clash(xs[i], xs[n]);
        }
      }
      assert forall i, j :: 0 <= i < j < n ==> xs[..n][i] == xs[i] && xs[..n][j] == xs[j];
    }
  }

  predicate SectionsOk(h: BriefHashing, sections: PerProduct<Section>, at: Instant) {
    (forall i :: 0 <= i < |PRODUCTS| ==> SectionOk(h, PRODUCTS[i], sections.Of(PRODUCTS[i]), at))
    && NoClash(Identities(sections))
  }

  /** What the verifier accepts. */
  predicate BriefOk(h: BriefHashing, b: Brief, at: Instant) {
    && IdentityShape(BRIEF_PREFIX, b.briefId, b.recordHash) && b.body.evaluatedAt == at && b.body.authority == BOUNDARY
    && SectionsOk(h, b.body.sections, at)
    && b.recordHash == h.brief(b.body) && b.briefId == IdFrom(BRIEF_PREFIX, h.brief(b.body))
  }

  method VerifyBrief(h: BriefHashing, b: Brief, at: Instant) returns (problem: Option<BriefError>)
    ensures problem.None? <==> BriefOk(h, b, at)
  {
    if !IdentityShape(BRIEF_PREFIX, b.briefId, b.recordHash) {
      return Some(BriefError.Malformed);
    }
    if b.body.evaluatedAt != at {
      return Some(ClockMismatch);
    }
    if b.body.authority != BOUNDARY {
      return Some(AuthorityWidened);
    }
    problem := VerifySections(h, b.body.sections, at);
    if problem.Some? {
      return;
    }
    if b.recordHash != h.brief(b.body) {
      return Some(BriefError.HashMismatch);
    }
    if b.briefId != IdFrom(BRIEF_PREFIX, h.brief(b.body)) {
      return Some(BriefError.IdMismatch);
    }
    return None;
  }

  lemma {:induction false} ClashStays(xs: seq<Option<Identity>>, k: nat)
    requires k <= |xs| && !NoClash(xs[..k])
    ensures !NoClash(xs)
    decreases |xs|
  {
    if k < |xs| {
      assert xs[..|xs| - 1][..k] == xs[..k];
      ClashStays(xs[..|xs| - 1], k);
    } else {
      assert xs[..k] == xs;
    }
  }

  /** Registers an identity, if there is one, unless its id or hash was seen before. */
  method Register(ids: set<string>, hashes: set<string>, x: Option<Identity>, ghost before: seq<Option<Identity>>)
    returns (ok: bool, newIds: set<string>, newHashes: set<string>)
    requires NoClash(before) && ids == IdsOf(before) && hashes == HashesOf(before)
    ensures ok <==> NoClash(before + [x])
    ensures ok ==> newIds == IdsOf(before + [x]) && newHashes == HashesOf(before + [x])
  {
    assert (before + [x])[..|before|] == before;
    ok, newIds, newHashes := true, ids, hashes;
    if x.Some? {
      if x.value.id in ids || x.value.hash in hashes {
        return false, ids, hashes;
      }
      newIds, newHashes := ids + {x.value.id}, hashes + {x.value.hash};
    }
  }

  method VerifySections(h: BriefHashing, sections: PerProduct<Section>, at: Instant) returns (problem: Option<BriefError>)
    ensures problem.None? <==> SectionsOk(h, sections, at)
  {
    ghost var xs := Identities(sections);
    var ids: set<string>, hashes: set<string> := {}, {};
    var k := 0;
    while k < |PRODUCTS|
      invariant 0 <= k <= |PRODUCTS|
      invariant forall i :: 0 <= i < k ==> SectionOk(h, PRODUCTS[i], sections.Of(PRODUCTS[i]), at)
      invariant NoClash(xs[..k]) && ids == IdsOf(xs[..k]) && hashes == HashesOf(xs[..k])
    {
      var product := PRODUCTS[k];
      var section := sections.Of(product);
      if !SectionOk(h, product, section, at) {
        return Some(BadSection(product));
      }
      var ok: bool;
      ok, ids, hashes := Register(ids, hashes, IdentityOf(section), xs[..k]);
      assert xs[..k] + [IdentityOf(section)] == xs[..k + 1];
      if !ok {
        ClashStays(xs, k + 1);
        return Some(DuplicateCarrier);
      }
      k := k + 1;
    }
    assert xs[..k] == xs;
    return None;
  }

  // ----- issuer and verifier agree -----

  /** How the disposition, the reasons and the claim of a verdict under the strict policy go together. */
  predicate Coherent(d: Disposition, reasons: seq<Reason>, claim: ClaimStatus) {
    && Distinct(reasons) && CarrierMissing !in reasons
    && (d == Reject <==> HasRejectionCode(reasons))
    && (d == Full <==> reasons == []) && (d == Full ==> claim != UnavailableClaim)
  }

  lemma ReasonsAreDistinct(m: Metadata, at: Instant)
    ensures Distinct(ReasonsOf(m, at)) && CarrierMissing !in ReasonsOf(m, at)
  {
    ReasonsAreDistinctCodes(m, at);
    AscendingIsDistinct(ReasonsOf(m, at), RankOfReason, 0, 12);
  }

  lemma VerdictIsCoherent(m: Metadata, at: Instant)
    requires ValidMetadata(m)
    ensures Coherent(DispositionOf(m, at, STRICT), ReasonsOf(m, at), m.claim)
  {
    ReasonsAreDistinct(m, at);
    FullExactlyWhenNoReason(m, at, STRICT);
    StrictRejectionShowsInReasons(m, at);
  }

  lemma RejectedSectionIsOk(h: BriefHashing, p: Product, c: Carrier, v: Verified, at: Instant)
    requires VerifyCarrier(h.carriers, c, at, STRICT) == Ok(v) && v.disposition == Reject
    requires Coherent(v.disposition, v.reasons, c.body.meta.claim)
    ensures SectionOk(h, p, SectionOf(p, v), at)
  {
  }

  lemma FullSectionIsOk(h: BriefHashing, p: Product, c: Carrier, v: Verified, at: Instant)
    requires VerifyCarrier(h.carriers, c, at, STRICT) == Ok(v) && v.disposition == Full && c.body.meta.producer == p
    requires Coherent(v.disposition, v.reasons, c.body.meta.claim)
    ensures SectionOk(h, p, SectionOf(p, v), at)
  {
  }

  lemma MetadataSectionIsOk(h: BriefHashing, p: Product, c: Carrier, v: Verified, at: Instant)
    requires VerifyCarrier(h.carriers, c, at, STRICT) == Ok(v) && v.disposition == MetadataOnly && c.body.meta.producer == p
    requires Coherent(v.disposition, v.reasons, c.body.meta.claim)
    ensures SectionOk(h, p, SectionOf(p, v), at)
  {
    assert !RightsRejected(c.body.meta.rights.status);
  }

  lemma SuppliedSectionIsOk(h: BriefHashing, p: Product, c: Carrier, v: Verified, at: Instant)
    requires VerifyCarrier(h.carriers, c, at, STRICT) == Ok(v) && c.body.meta.producer == p
    requires Coherent(v.disposition, v.reasons, c.body.meta.claim)
    ensures SectionOk(h, p, SectionOf(p, v), at)
  {
    match v.disposition
    case Reject => RejectedSectionIsOk(h, p, c, v, at);
    case Full => FullSectionIsOk(h, p, c, v, at);
    case MetadataOnly => MetadataSectionIsOk(h, p, c, v, at);
  }

  /** A section built from any valid carrier, at any clock, is one the verifier accepts at that clock. */
  lemma BuiltSectionIsOk(h: BriefHashing, p: Product, supplied: Option<Carrier>, at: Instant)
    requires SectionFrom(h, p, supplied, at).Ok?
    ensures SectionOk(h, p, SectionFrom(h, p, supplied, at).value, at)
  {
    if supplied.Some? {
      VerdictIsCoherent(supplied.value.body.meta, at);
      SuppliedSectionIsOk(h, p, supplied.value, VerifyCarrier(h.carriers, supplied.value, at, STRICT).value, at);
    }
  }

  predicate Supplied(carriers: PerProduct<Option<Carrier>>, p: Product) {
    carriers.Of(p).Some?
  }

  /** Every supplied carrier verifies, sits under its own producer, and no two are the same. */
  predicate Issuable(h: BriefHashing, carriers: PerProduct<Option<Carrier>>, at: Instant) {
    && (forall p :: SectionFrom(h, p, carriers.Of(p), at).Ok?)
    && (forall p, q :: p != q ==> !SameCarrier(carriers, p, q))
  }

  lemma AllProducts(p: Product) returns (k: nat)
    ensures k < |PRODUCTS| && PRODUCTS[k] == p
  {
    match p
    case LiquiLens => k := 0;
    case Seiche => k := 1;
    case Undertow => k := 2;
    case Palimpsest => k := 3;
  }

  /** What the issuer has filled in after k products. */
  ghost predicate BuiltSoFar(h: BriefHashing, carriers: PerProduct<Option<Carrier>>, at: Instant,
                             sections: map<Product, Section>, k: nat)
    requires k <= |PRODUCTS|
  {
    forall i :: 0 <= i < k ==>
      && SectionFrom(h, PRODUCTS[i], carriers.Of(PRODUCTS[i]), at).Ok?
      && PRODUCTS[i] in sections
      && sections[PRODUCTS[i]] == SectionFrom(h, PRODUCTS[i], carriers.Of(PRODUCTS[i]), at).value
  }

  /** The sections the issuer would fill in, with a placeholder where a carrier is refused. */
  function Intended(h: BriefHashing, carriers: PerProduct<Option<Carrier>>, at: Instant): PerProduct<Section> {
    PerProduct(IntendedFor(h, carriers, at, LiquiLens), IntendedFor(h, carriers, at, Seiche),
               IntendedFor(h, carriers, at, Undertow), IntendedFor(h, carriers, at, Palimpsest))
  }

  function IntendedFor(h: BriefHashing, carriers: PerProduct<Option<Carrier>>, at: Instant, p: Product): Section {
    var s := SectionFrom(h, p, carriers.Of(p), at);
    if s.Ok? then s.value else MissingSection(p)
  }

  lemma IntendedOf(h: BriefHashing, carriers: PerProduct<Option<Carrier>>, at: Instant, p: Product)
    ensures Intended(h, carriers, at).Of(p) == IntendedFor(h, carriers, at, p)
  {
  }

  lemma NoClashByProduct(sections: PerProduct<Section>)
    ensures NoClash(Identities(sections))
            <==> forall p, q :: p != q ==> !Clash(IdentityOf(sections.Of(p)), IdentityOf(sections.Of(q)))
  {
    var xs := Identities(sections);
    NoClashIsPairwise(xs);
    if NoClash(xs) {
      forall p, q | p != q ensures !Clash(IdentityOf(sections.Of(p)), IdentityOf(sections.Of(q))) {
        var i := AllProducts(p);
        var j := AllProducts(q);
        assert !Clash(xs[if i < j then i else j], xs[if i < j then j else i]);
      }
    }
  }

  predicate SameCarrier(carriers: PerProduct<Option<Carrier>>, p: Product, q: Product) {
    Supplied(carriers, p) && Supplied(carriers, q)
    && (carriers.Of(p).value.carrierId == carriers.Of(q).value.carrierId
        || carriers.Of(p).value.recordHash == carriers.Of(q).value.recordHash)
  }

  lemma SectionsClashLikeCarriers(h: BriefHashing, carriers: PerProduct<Option<Carrier>>, at: Instant, p: Product, q: Product)
    requires SectionFrom(h, p, carriers.Of(p), at).Ok? && SectionFrom(h, q, carriers.Of(q), at).Ok?
    ensures Clash(IdentityOf(SectionFrom(h, p, carriers.Of(p), at).value), IdentityOf(SectionFrom(h, q, carriers.Of(q), at).value))
            <==> SameCarrier(carriers, p, q)
  {
  }

  /** The loop's duplicate check, over the sections, is the check over the carriers. */
  lemma ClashFreeExactlyWhenDistinct(h: BriefHashing, carriers: PerProduct<Option<Carrier>>, at: Instant, sections: PerProduct<Section>)
    requires forall p :: SectionFrom(h, p, carriers.Of(p), at).Ok?
                         && sections.Of(p) == SectionFrom(h, p, carriers.Of(p), at).value
    ensures NoClash(Identities(sections)) <==> forall p, q :: p != q ==> !SameCarrier(carriers, p, q)
  {
    NoClashByProduct(sections);
    forall p, q | p != q
      ensures Clash(IdentityOf(sections.Of(p)), IdentityOf(sections.Of(q))) <==> SameCarrier(carriers, p, q)
    {
      SectionsClashLikeCarriers(h, carriers, at, p, q);
    }
  }

  lemma ClashFreeExactlyWhenIssuable(h: BriefHashing, carriers: PerProduct<Option<Carrier>>, at: Instant)
    requires forall p :: SectionFrom(h, p, carriers.Of(p), at).Ok?
    ensures NoClash(Identities(Intended(h, carriers, at))) <==> Issuable(h, carriers, at)
  {
    var sections := Intended(h, carriers, at);
    forall p ensures sections.Of(p) == SectionFrom(h, p, carriers.Of(p), at).value {
      IntendedOf(h, carriers, at, p);
    }
    ClashFreeExactlyWhenDistinct(h, carriers, at, sections);
  }

  /** One step of the issuing loop: the section, and its identity registered. */
  method BuildOne(h: BriefHashing, p: Product, supplied: Option<Carrier>, at: Instant, ids: set<string>, hashes: set<string>,
                  ghost before: seq<Option<Identity>>)
    returns (section: Result<Section, BriefError>, newIds: set<string>, newHashes: set<string>)
    requires NoClash(before) && ids == IdsOf(before) && hashes == HashesOf(before)
    ensures section.Ok? ==> SectionFrom(h, p, supplied, at) == section
    ensures section.Err? ==> SectionFrom(h, p, supplied, at).Err?
                             || !NoClash(before + [IdentityOf(SectionFrom(h, p, supplied, at).value)])
    ensures section.Ok? ==> var after := before + [IdentityOf(section.value)];
                            NoClash(after) && newIds == IdsOf(after) && newHashes == HashesOf(after)
  {
    section, newIds, newHashes := SectionFrom(h, p, supplied, at), ids, hashes;
    if section.Ok? {
      var ok: bool;
      ok, newIds, newHashes := Register(ids, hashes, IdentityOf(section.value), before);
      if !ok {
        section := Err(DuplicateCarrier);
      }
    }
  }

  lemma IntendedIdentity(h: BriefHashing, carriers: PerProduct<Option<Carrier>>, at: Instant, k: nat)
    requires k < |PRODUCTS| && SectionFrom(h, PRODUCTS[k], carriers.Of(PRODUCTS[k]), at).Ok?
    ensures Identities(Intended(h, carriers, at))[k]
            == IdentityOf(SectionFrom(h, PRODUCTS[k], carriers.Of(PRODUCTS[k]), at).value)
  {
    IntendedOf(h, carriers, at, PRODUCTS[k]);
  }

  lemma ProductsAreDistinct(i: nat, j: nat)
    requires i < j < |PRODUCTS|
    ensures PRODUCTS[i] != PRODUCTS[j]
  {
  }

  lemma IdentitiesSoFar(h: BriefHashing, carriers: PerProduct<Option<Carrier>>, at: Instant, k: nat)
    requires k < |PRODUCTS| && SectionFrom(h, PRODUCTS[k], carriers.Of(PRODUCTS[k]), at).Ok?
    ensures var xs := Identities(Intended(h, carriers, at));
            xs[..k + 1] == xs[..k] + [IdentityOf(SectionFrom(h, PRODUCTS[k], carriers.Of(PRODUCTS[k]), at).value)]
  {
    IntendedIdentity(h, carriers, at, k);
  }

  lemma BuiltOneMore(h: BriefHashing, carriers: PerProduct<Option<Carrier>>, at: Instant, sections: map<Product, Section>, k: nat)
    requires k < |PRODUCTS| && BuiltSoFar(h, carriers, at, sections, k)
    requires SectionFrom(h, PRODUCTS[k], carriers.Of(PRODUCTS[k]), at).Ok?
    ensures BuiltSoFar(h, carriers, at, sections[PRODUCTS[k] := SectionFrom(h, PRODUCTS[k], carriers.Of(PRODUCTS[k]), at).value], k + 1)
  {
    forall i | 0 <= i < k ensures PRODUCTS[i] != PRODUCTS[k] {
      ProductsAreDistinct(i, k);
    }
  }

  /** Every producer can be built, and no two identities clash. */
  ghost predicate Buildable(h: BriefHashing, carriers: PerProduct<Option<Carrier>>, at: Instant) {
    (forall k :: 0 <= k < |PRODUCTS| ==> SectionFrom(h, PRODUCTS[k], carriers.Of(PRODUCTS[k]), at).Ok?)
    && NoClash(Identities(Intended(h, carriers, at)))
  }

  /** One pass of the loop: the next producer's section, or what stands against the whole brief. */
  method BuildNext(h: BriefHashing, carriers: PerProduct<Option<Carrier>>, at: Instant, k: nat, ids: set<string>, hashes: set<string>)
    returns (built: Result<Section, BriefError>, newIds: set<string>, newHashes: set<string>)
    requires k < |PRODUCTS|
    requires var xs := Identities(Intended(h, carriers, at));
             NoClash(xs[..k]) && ids == IdsOf(xs[..k]) && hashes == HashesOf(xs[..k])
    ensures built.Err? ==> !Buildable(h, carriers, at)
    ensures built.Ok? ==> SectionFrom(h, PRODUCTS[k], carriers.Of(PRODUCTS[k]), at) == built
    ensures built.Ok? ==> var xs := Identities(Intended(h, carriers, at));
                          NoClash(xs[..k + 1]) && newIds == IdsOf(xs[..k + 1]) && newHashes == HashesOf(xs[..k + 1])
  {
    var product := PRODUCTS[k];
    ghost var xs := Identities(Intended(h, carriers, at));
    built, newIds, newHashes := BuildOne(h, product, carriers.Of(product), at, ids, hashes, xs[..k]);
    if SectionFrom(h, product, carriers.Of(product), at).Ok? {
      IdentitiesSoFar(h, carriers, at, k);
      if built.Err? {
        ClashStays(xs, k + 1);
      }
    }
  }

  method BuildSections(h: BriefHashing, carriers: PerProduct<Option<Carrier>>, at: Instant)
    returns (sections: map<Product, Section>, problem: Option<BriefError>)
    ensures problem.None? <==> Buildable(h, carriers, at)
    ensures problem.None? ==> BuiltSoFar(h, carriers, at, sections, |PRODUCTS|)
  {
    sections := map[];
    ghost var xs := Identities(Intended(h, carriers, at));
    var ids: set<string>, hashes: set<string> := {}, {};
    var k := 0;
    while k < |PRODUCTS|
      invariant 0 <= k <= |PRODUCTS|
      invariant BuiltSoFar(h, carriers, at, sections, k)
      invariant NoClash(xs[..k]) && ids == IdsOf(xs[..k]) && hashes == HashesOf(xs[..k])
    {
      var built: Result<Section, BriefError>;
      built, ids, hashes := BuildNext(h, carriers, at, k, ids, hashes);
      if built.Err? {
        return sections, Some(built.error);
      }
      BuiltOneMore(h, carriers, at, sections, k);
      sections := sections[PRODUCTS[k] := built.value];
      k := k + 1;
    }
    assert xs[..k] == xs;
    return sections, None;
  }

  /**
   * Issues a brief from any subset of carriers at any clock.  It succeeds exactly when the carriers are
   * issuable; the issuer's own verification never fails, and the brief verifies at this clock and no other.
   */
  method IssueBrief(h: BriefHashing, carriers: PerProduct<Option<Carrier>>, at: Instant) returns (result: Result<Brief, BriefError>)
    requires Digests(h)
    ensures result.Ok? <==> Issuable(h, carriers, at)
    ensures result.Ok? ==> forall t :: BriefOk(h, result.value, t) <==> t == at
    ensures result.Ok? ==> forall p :: SectionFrom(h, p, carriers.Of(p), at).Ok?
                                       && result.value.body.sections.Of(p) == SectionFrom(h, p, carriers.Of(p), at).value
  {
    var sections, problem := BuildSections(h, carriers, at);
    EveryProduct(h, carriers, at);
    if problem.Some? {
      if forall p :: SectionFrom(h, p, carriers.Of(p), at).Ok? {
        ClashFreeExactlyWhenIssuable(h, carriers, at);
      }
      return Err(problem.value);
    }
    ClashFreeExactlyWhenIssuable(h, carriers, at);
    assert PRODUCTS[0] == LiquiLens && PRODUCTS[1] == Seiche && PRODUCTS[2] == Undertow && PRODUCTS[3] == Palimpsest;
    var body := BriefBody(at, PerProduct(sections[LiquiLens], sections[Seiche], sections[Undertow], sections[Palimpsest]), BOUNDARY);
    assert body.sections == Intended(h, carriers, at);
    var digest := h.brief(body);
    var brief := Brief(IdFrom(BRIEF_PREFIX, digest), digest, body);
    IdentityShapeOfDigest(BRIEF_PREFIX, digest);
    IntendedSectionsAreOk(h, carriers, at);
    var check := VerifyBrief(h, brief, at);
    result := IfNone(check, brief);
  }

  function IfNone(problem: Option<BriefError>, b: Brief): Result<Brief, BriefError> {
    if problem.None? then Ok(b) else Err(problem.value)
  }

  lemma EveryProduct(h: BriefHashing, carriers: PerProduct<Option<Carrier>>, at: Instant)
    ensures (forall k :: 0 <= k < |PRODUCTS| ==> SectionFrom(h, PRODUCTS[k], carriers.Of(PRODUCTS[k]), at).Ok?)
            <==> forall p :: SectionFrom(h, p, carriers.Of(p), at).Ok?
  {
    if forall k :: 0 <= k < |PRODUCTS| ==> SectionFrom(h, PRODUCTS[k], carriers.Of(PRODUCTS[k]), at).Ok? {
      forall p ensures SectionFrom(h, p, carriers.Of(p), at).Ok? {
        var k := AllProducts(p);
      }
    }
  }

  lemma IntendedSectionsAreOk(h: BriefHashing, carriers: PerProduct<Option<Carrier>>, at: Instant)
    requires Issuable(h, carriers, at)
    ensures SectionsOk(h, Intended(h, carriers, at), at)
    ensures forall p :: Intended(h, carriers, at).Of(p) == SectionFrom(h, p, carriers.Of(p), at).value
  {
    ClashFreeExactlyWhenIssuable(h, carriers, at);
    forall p
      ensures Intended(h, carriers, at).Of(p) == SectionFrom(h, p, carriers.Of(p), at).value
      ensures SectionOk(h, p, Intended(h, carriers, at).Of(p), at)
    {
      IntendedOf(h, carriers, at, p);
      BuiltSectionIsOk(h, p, carriers.Of(p), at);
    }
  }

  // ----- what an accepted brief guarantees -----

  /** Carriers named by an accepted brief are pairwise distinct. */
  lemma AcceptedIdentitiesAreDistinct(h: BriefHashing, b: Brief, at: Instant, p: Product, q: Product)
    requires BriefOk(h, b, at) && p != q
    ensures var s, t := b.body.sections.Of(p), b.body.sections.Of(q);
            s.carrierId.Some? && t.carrierId.Some? ==> s.carrierId != t.carrierId && s.recordHash != t.recordHash
  {
    var i := AllProducts(p);
    var j := AllProducts(q);
    NoClashByProduct(b.body.sections);
    assert !Clash(IdentityOf(b.body.sections.Of(p)), IdentityOf(b.body.sections.Of(q)));
    assert SectionOk(h, PRODUCTS[i], b.body.sections.Of(p), at) && SectionOk(h, PRODUCTS[j], b.body.sections.Of(q), at);
  }

  /**
   * In an accepted brief a payload appears only in full, for a carrier that hashes to the recorded identity
   * and may be disclosed in full at that clock; metadata only where the policy allows exactly that; and a
   * rejected or missing section shows nothing.
   */
  lemma AcceptedSectionsDiscloseWhatIsAllowed(h: BriefHashing, b: Brief, at: Instant, p: Product)
    requires BriefOk(h, b, at)
    ensures var s := b.body.sections.Of(p);
            match s.evidence
            case Whole(c) =>
              && s.state == FullState && c.body.meta.producer == p && FullyDisclosable(c.body.meta, at)
              && s.recordHash == Some(h.carriers.carrier(c.body)) && s.carrierId == Some(IdOf(h.carriers.carrier(c.body)))
            case ReferenceOnly(r) =>
              && (s.state == MetadataOnlyState || s.state == UnavailableState) && r.meta.producer == p
              && !RightsRejected(r.meta.rights.status) && r.meta.clocks.asOf <= at && s.reasons == ReasonsOf(r.meta, at) != []
            case Withheld => s.state == RejectedState || s.state == MissingState
  {
    var k := AllProducts(p);
    var s := b.body.sections.Of(p);
    assert SectionOk(h, PRODUCTS[k], s, at);
    if s.evidence.Whole? {
      FullExactlyWhenNoReason(s.evidence.carrier.body.meta, at, STRICT);
    }
  }
}
