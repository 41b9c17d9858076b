/** Issuing and verifying receipts: two independently written paths over the same record. */
module TradeSafetyReceipts {
  import opened Basics
  import opened TradeSafety
  import opened TradeSafetyDecision
  import opened TradeSafetyLifetime

  type Key = seq<bv8>

  datatype Authority = Authority(financialAuthority: string, canExecute: bool, canRecommend: bool,
                                 canAllocateCapital: bool, isCreditRating: bool, isExecutableQuote: bool)

  const BOUNDARY := Authority("operator_policy_check_only", false, false, false, false, false)

  datatype Profile = Sha256 | HmacSha256

  datatype Issuer = Issuer(name: string, version: string, endpoint: string)

  datatype Receipt = Receipt(
    receiptId: string, recordHash: string, evaluatedAt: Instant, expiresAt: Instant,
    request: Request, requestHash: string, policy: Policy, policyHash: string, evidence: Evidence, preview: Preview,
    decision: Decision, issuer: Issuer, profile: Profile, keyId: Option<string>, signature: Option<string>,
    authority: Authority)

  /** The digests of the canonical bytes, and the keyed digest, as functions of what they cover. */
  datatype Hashing = Hashing(request: Request -> string, policy: Policy -> string, receipt: Receipt -> string,
                             hmac: (Key, string) -> string)

  ghost predicate Digests(h: Hashing) {
    && (forall x :: IsDigest(h.receipt(x)))
    && (forall k, d :: IsDigest(h.hmac(k, d)))
  }

  datatype Error =
    | InvalidIdentity | InvalidWindow | NotYetValid | ReceiptExpired
    | InvalidRequest | InvalidPolicy | InvalidEvidence | InvalidPreview | InvalidIntegrity | InvalidDecision | InvalidTtl
    | RequestNotYetValid | RequestExpired | AuthorityWidened | RequestHashMismatch
    | EvidenceUnbound(product: Product) | PreviewUnbound | AccountMismatch | PolicyHashMismatch | PolicyRefMismatch
    | RecordHashMismatch | ReceiptIdMismatch | KeyMissing | KeyEmpty | SignatureInvalid | KeyUnexpected
    | KeyWithoutKeyId | KeyIdBlank | DecisionMismatch | ExpiryTooLate | LivePassUnauthenticated | NoSafeWindow

  predicate NonBlank(s: string) {
    exists i :: 0 <= i < |s| && !IsSpace(s[i])
  }

  /** What the record hash covers: everything but the identity, the hash itself and the signature. */
  function Unsigned(r: Receipt): Receipt {
    r.(receiptId := "", recordHash := "", signature := None)
  }

  function Digest(h: Hashing, r: Receipt): string {
    h.receipt(Unsigned(r))
  }

  const ID_PREFIX := "trade_safety_"

  function IdOf(digest: string): string {
    IdFrom(ID_PREFIX, digest)
  }

  predicate IntegrityShape(r: Receipt) {
    && (r.keyId.Some? ==> NonBlank(r.keyId.value))
    && (r.signature.Some? ==> IsDigest(r.signature.value))
    && match r.profile
       case Sha256 => r.keyId.None? && r.signature.None?
       case HmacSha256 => r.keyId.Some? && r.signature.Some?
  }

  predicate DecisionShape(d: Decision) {
    d.reasons != [] && Distinct(d.reasons)
  }

  // ----- verification, in the order in which the checks run -----

  function Unless(c: bool, error: Error): Result<(), Error> {
    if c then Ok(()) else Err(error)
  }

  function Then(first: Result<(), Error>, second: Result<(), Error>): Result<(), Error> {
    if first.Ok? then second else first
  }

  function CheckWindow(r: Receipt, at: Instant): Result<(), Error> {
    if r.expiresAt <= r.evaluatedAt then Err(InvalidWindow)
    else if at < r.evaluatedAt then Err(NotYetValid)
    else Unless(at < r.expiresAt, ReceiptExpired)
  }

  function CheckRecords(r: Receipt): Result<(), Error> {
    if !ValidRequest(r.request) then Err(InvalidRequest)
    else if !ValidPolicy(r.policy) then Err(InvalidPolicy)
    else if !ValidEvidence(r.evidence) then Err(InvalidEvidence)
    else if !ValidPreview(r.preview) then Err(InvalidPreview)
    else if !IntegrityShape(r) then Err(InvalidIntegrity)
    else if !DecisionShape(r.decision) then Err(InvalidDecision)
    else if r.evaluatedAt < r.request.createdAt then Err(RequestNotYetValid)
    else Unless(r.evaluatedAt < r.request.expiresAt, RequestExpired)
  }

  function CheckEvidenceBinding(e: Evidence, b: Preview, accountId: string, requestHash: string): Result<(), Error> {
    if e.seiche.requestHash != requestHash then Err(EvidenceUnbound(Seiche))
    else if e.undertow.requestHash != requestHash then Err(EvidenceUnbound(Undertow))
    else if e.liquilens.requestHash != requestHash then Err(EvidenceUnbound(LiquiLens))
    else if b.requestHash != requestHash then Err(PreviewUnbound)
    else Unless(b.accountId == accountId, AccountMismatch)
  }

  predicate PolicyNamed(r: Request, p: Policy) {
    r.policyId == p.policyId && r.policyVersion == p.version
  }

  function CheckBinding(h: Hashing, r: Receipt): Result<(), Error> {
    if r.authority != BOUNDARY then Err(AuthorityWidened)
    else if r.requestHash != h.request(r.request) then Err(RequestHashMismatch)
    else
      Then(CheckEvidenceBinding(r.evidence, r.preview, r.request.agent.accountId, r.requestHash),
           if r.policyHash != h.policy(r.policy) then Err(PolicyHashMismatch)
           else Unless(PolicyNamed(r.request, r.policy), PolicyRefMismatch))
  }

  function CheckSeal(h: Hashing, r: Receipt, key: Option<Key>): Result<(), Error> {
    if r.recordHash != Digest(h, r) then Err(RecordHashMismatch)
    else if r.receiptId != IdOf(Digest(h, r)) then Err(ReceiptIdMismatch)
    else if r.profile == HmacSha256 then
      if key.None? then Err(KeyMissing)
      else if key.value == [] then Err(KeyEmpty)
      else Unless(r.signature == Some(h.hmac(key.value, Digest(h, r))), SignatureInvalid)
    else Unless(key.None?, KeyUnexpected)
  }

  function CheckDecision(r: Receipt): Result<(), Error>
    requires CheckRecords(r).Ok?
  {
    var authenticated := r.profile == HmacSha256;
    var expected := Decide(r.request, r.evidence, r.preview, r.policy, r.evaluatedAt, authenticated);
    var ceiling := Ceiling(r.request, r.evidence, r.preview, r.policy, r.evaluatedAt, 3600, r.decision.outcome != Unavailable);
    if r.decision != expected then Err(DecisionMismatch)
    else if r.expiresAt > ceiling then Err(ExpiryTooLate)
    else Unless(r.request.mode == Live && r.decision.outcome == Pass ==> authenticated, LivePassUnauthenticated)
  }

  /** The verifier; on success it says whether the receipt is authenticated. */
  function Verify(h: Hashing, r: Receipt, at: Instant, key: Option<Key>): Result<bool, Error> {
    if !IdentityShape(ID_PREFIX, r.receiptId, r.recordHash) then Err(InvalidIdentity)
    else
      var before := Then(CheckWindow(r, at), CheckRecords(r));
      if before.Err? then Err(before.error)
      else
        var checks := Then(Then(CheckBinding(h, r), CheckSeal(h, r, key)), CheckDecision(r));
        if checks.Err? then Err(checks.error) else Ok(r.profile == HmacSha256)
  }

  // ----- issuing -----

  datatype Inputs = Inputs(request: Request, evidence: Evidence, policy: Policy, preview: Preview, at: Instant,
                           issuer: Issuer, ttl: int, key: Option<Key>, keyId: Option<string>)

  /** Why the issuer turns inputs down, in the order in which it looks. */
  function InputRefusal(h: Hashing, x: Inputs): Result<(), Error> {
    if !ValidRequest(x.request) then Err(InvalidRequest)
    else if !ValidEvidence(x.evidence) then Err(InvalidEvidence)
    else if !ValidPolicy(x.policy) then Err(InvalidPolicy)
    else if !ValidPreview(x.preview) then Err(InvalidPreview)
    else if !(0 < x.ttl <= 3600) then Err(InvalidTtl)
    else if x.at < x.request.createdAt then Err(RequestNotYetValid)
    else if x.at >= x.request.expiresAt then Err(RequestExpired)
    else if !PolicyNamed(x.request, x.policy) then Err(PolicyRefMismatch)
    else
      Then(CheckEvidenceBinding(x.evidence, x.preview, x.request.agent.accountId, h.request(x.request)),
           if x.key.None? != x.keyId.None? then Err(KeyWithoutKeyId)
           else if x.key.Some? && x.key.value == [] then Err(KeyEmpty)
           else Unless(x.keyId.Some? ==> NonBlank(x.keyId.value), KeyIdBlank))
  }

  function IssuedDecision(x: Inputs): Decision
    requires ValidEvidence(x.evidence) && ValidPreview(x.preview)
  {
    Decide(x.request, x.evidence, x.preview, x.policy, x.at, x.key.Some?)
  }

  function IssuedExpiry(x: Inputs): Instant
    requires ValidEvidence(x.evidence) && ValidPreview(x.preview)
  {
    Ceiling(x.request, x.evidence, x.preview, x.policy, x.at, x.ttl, IssuedDecision(x).outcome != Unavailable)
  }

  /** The receipt binds exactly these inputs and the decision and expiry they lead to. */
  predicate Binds(r: Receipt, x: Inputs)
    requires ValidEvidence(x.evidence) && ValidPreview(x.preview)
  {
    && r.request == x.request && r.evidence == x.evidence && r.policy == x.policy && r.preview == x.preview
    && r.issuer == x.issuer && r.evaluatedAt == x.at && r.expiresAt == IssuedExpiry(x) && r.decision == IssuedDecision(x)
    && r.profile == (if x.key.Some? then HmacSha256 else Sha256) && r.keyId == x.keyId
    && r.authority == BOUNDARY
  }

  lemma DigestIgnoresSeal(h: Hashing, r: Receipt, id: string, hash: string, signature: Option<string>)
    ensures Digest(h, r.(receiptId := id, recordHash := hash, signature := signature)) == Digest(h, r)
  {
    assert Unsigned(r.(receiptId := id, recordHash := hash, signature := signature)) == Unsigned(r);
  }

  /** A record sealed the way the issuer seals it. */
  predicate Sealed(h: Hashing, r: Receipt, key: Option<Key>) {
    && r.recordHash == Digest(h, r) && r.receiptId == IdOf(Digest(h, r))
    && r.signature == (if key.Some? then Some(h.hmac(key.value, Digest(h, r))) else None)
    && r.requestHash == h.request(r.request) && r.policyHash == h.policy(r.policy)
  }

  // ----- what acceptance means, in the receipt's own fields -----

  /** Every part is about this one request, and the policy is the one it names. */
  predicate AboutItsRequest(h: Hashing, request: Request, evidence: Evidence, preview: Preview, policy: Policy) {
    && evidence.seiche.requestHash == h.request(request) && evidence.undertow.requestHash == h.request(request)
    && evidence.liquilens.requestHash == h.request(request) && preview.requestHash == h.request(request)
    && preview.accountId == request.agent.accountId
    && request.policyId == policy.policyId && request.policyVersion == policy.version
  }

  /** It was evaluated while its request was open, and lives no longer than the request and for at most an hour. */
  predicate InItsTime(r: Receipt) {
    && r.request.createdAt <= r.evaluatedAt < r.request.expiresAt
    && r.evaluatedAt < r.expiresAt <= r.request.expiresAt && r.expiresAt <= r.evaluatedAt + 3_600_000_000
  }

  /** It gives nobody any authority. */
  predicate Powerless(r: Receipt) {
    && r.authority.financialAuthority == "operator_policy_check_only"
    && !r.authority.canExecute && !r.authority.canRecommend && !r.authority.canAllocateCapital
    && !r.authority.isCreditRating && !r.authority.isExecutableQuote
  }

  /** The record hash is the digest of the record, the identity its first digits, and the signature the keyed digest. */
  predicate Authentic(h: Hashing, r: Receipt, key: Option<Key>) {
    && r.requestHash == h.request(r.request) && r.policyHash == h.policy(r.policy)
    && r.recordHash == h.receipt(r.(receiptId := "", recordHash := "", signature := None))
    && |r.recordHash| >= 24 && r.receiptId == "trade_safety_" + r.recordHash[..24]
    && (if r.profile == HmacSha256 then
          && key.Some? && key.value != [] && r.keyId.Some? && NonBlank(r.keyId.value)
          && r.signature == Some(h.hmac(key.value, r.recordHash))
        else key.None? && r.keyId.None? && r.signature.None?)
  }

  predicate ValidRecords(r: Receipt) {
    ValidRequest(r.request) && ValidPolicy(r.policy) && ValidEvidence(r.evidence) && ValidPreview(r.preview)
  }

  lemma AuthenticExactlyWhen(h: Hashing, r: Receipt, key: Option<Key>)
    requires IntegrityShape(r) && r.requestHash == h.request(r.request) && r.policyHash == h.policy(r.policy)
    ensures IdentityShape(ID_PREFIX, r.receiptId, r.recordHash) && CheckSeal(h, r, key).Ok? ==> Authentic(h, r, key)
    ensures Digests(h) && Authentic(h, r, key) ==> IdentityShape(ID_PREFIX, r.receiptId, r.recordHash) && CheckSeal(h, r, key).Ok?
  {
    assert Unsigned(r) == r.(receiptId := "", recordHash := "", signature := None);
    if IsDigest(Digest(h, r)) {
      IdentityShapeOfDigest(ID_PREFIX, Digest(h, r));
    }
  }

  lemma BindingMeans(h: Hashing, r: Receipt)
    ensures CheckBinding(h, r).Ok?
            <==> && Powerless(r) && AboutItsRequest(h, r.request, r.evidence, r.preview, r.policy)
                 && r.requestHash == h.request(r.request) && r.policyHash == h.policy(r.policy)
  {
  }

  lemma CeilingIsWithinTtl(r: Request, e: Evidence, b: Preview, p: Policy, at: Instant, ttl: int, protect: bool)
    requires ValidEvidence(e) && ValidPreview(b)
    ensures Ceiling(r, e, b, p, at, ttl, protect) <= at + ttl * SECOND
  {
    CeilingMeaning(r, e, b, p, at, ttl, protect, Ceiling(r, e, b, p, at, ttl, protect) - 1);
  }

  /** A shorter time to live never gives a later expiry. */
  lemma CeilingGrowsWithTtl(r: Request, e: Evidence, b: Preview, p: Policy, at: Instant, ttl: int, longer: int, protect: bool)
    requires ValidEvidence(e) && ValidPreview(b) && ttl <= longer
    ensures Ceiling(r, e, b, p, at, ttl, protect) <= Ceiling(r, e, b, p, at, longer, protect)
  {
    var c := Ceiling(r, e, b, p, at, ttl, protect);
    CeilingMeaning(r, e, b, p, at, ttl, protect, c - 1);
    CeilingMeaning(r, e, b, p, at, longer, protect, c - 1);
  }

  lemma UnauthenticatedLiveIsUnavailable(r: Request, e: Evidence, b: Preview, p: Policy, at: Instant)
    requires ValidEvidence(e) && ValidPreview(b) && r.mode == Live
    ensures Decide(r, e, b, p, at, false).outcome == Unavailable
  {
    OutcomeMeaning(r, e, b, p, at, false);
  }

  lemma IssuedRecordIsValid(h: Hashing, x: Inputs, r: Receipt)
    requires Digests(h) && InputRefusal(h, x).Ok? && IssuedExpiry(x) > x.at
    requires Binds(r, x) && Sealed(h, r, x.key)
    ensures CheckRecords(r).Ok?
  {
    ReasonsAreWellFormed(x.request, x.evidence, x.preview, x.policy, x.at, x.key.Some?);
    assert IntegrityShape(r);
  }

  lemma IssuedRecordIsBound(h: Hashing, x: Inputs, r: Receipt)
    requires InputRefusal(h, x).Ok? && Binds(r, x) && Sealed(h, r, x.key)
    ensures CheckBinding(h, r).Ok?
  {
  }

  lemma IssuedRecordIsNamed(h: Hashing, x: Inputs, r: Receipt)
    requires Digests(h) && Sealed(h, r, x.key)
    ensures IdentityShape(ID_PREFIX, r.receiptId, r.recordHash)
  {
    IdentityShapeOfDigest(ID_PREFIX, Digest(h, r));
  }

  lemma IssuedRecordIsSealed(h: Hashing, x: Inputs, r: Receipt)
    requires InputRefusal(h, x).Ok? && Binds(r, x) && Sealed(h, r, x.key)
    ensures CheckSeal(h, r, x.key).Ok?
  {
  }

  lemma IssuedExpiryIsInTime(x: Inputs)
    requires ValidEvidence(x.evidence) && ValidPreview(x.preview) && x.ttl <= 3600
    ensures IssuedExpiry(x)
            <= Ceiling(x.request, x.evidence, x.preview, x.policy, x.at, 3600, IssuedDecision(x).outcome != Unavailable)
  {
    CeilingGrowsWithTtl(x.request, x.evidence, x.preview, x.policy, x.at, x.ttl, 3600, IssuedDecision(x).outcome != Unavailable);
  }

  lemma IssuedLivePassIsAuthenticated(x: Inputs)
    requires ValidEvidence(x.evidence) && ValidPreview(x.preview) && x.request.mode == Live && IssuedDecision(x).outcome == Pass
    ensures x.key.Some?
  {
    if x.key.None? {
      UnauthenticatedLiveIsUnavailable(x.request, x.evidence, x.preview, x.policy, x.at);
    }
  }

  lemma AcceptedRecords(h: Hashing, x: Inputs)
    requires InputRefusal(h, x).Ok?
    ensures ValidEvidence(x.evidence) && ValidPreview(x.preview) && 0 < x.ttl <= 3600 && x.at < x.request.expiresAt
  {
  }

  lemma BoundRecordPassesItsDecision(x: Inputs, r: Receipt)
    requires ValidEvidence(x.evidence) && ValidPreview(x.preview) && x.ttl <= 3600 && Binds(r, x) && CheckRecords(r).Ok?
    ensures CheckDecision(r).Ok?
  {
    IssuedExpiryIsInTime(x);
    if x.request.mode == Live && r.decision.outcome == Pass {
      IssuedLivePassIsAuthenticated(x);
    }
  }

  lemma IssuedRecordPassesItsDecision(h: Hashing, x: Inputs, r: Receipt)
    requires InputRefusal(h, x).Ok? && Binds(r, x) && CheckRecords(r).Ok?
    ensures CheckDecision(r).Ok?
  {
    AcceptedRecords(h, x);
    BoundRecordPassesItsDecision(x, r);
  }

  /** What the issuer builds, the verifier accepts at exactly the instants of the window. */
  lemma IssuedReceiptVerifies(h: Hashing, x: Inputs, r: Receipt, t: Instant)
    requires Digests(h) && InputRefusal(h, x).Ok? && IssuedExpiry(x) > x.at
    requires Binds(r, x) && Sealed(h, r, x.key)
    ensures Verify(h, r, t, x.key).Ok? <==> r.evaluatedAt <= t < r.expiresAt
    ensures Verify(h, r, t, x.key).Ok? ==> Verify(h, r, t, x.key).value == x.key.Some?
  {
    IssuedRecordIsValid(h, x, r);
    IssuedRecordIsBound(h, x, r);
    IssuedRecordIsNamed(h, x, r);
    IssuedRecordIsSealed(h, x, r);
    IssuedRecordPassesItsDecision(h, x, r);
  }

  /** What the issuer asks of its inputs. */
  predicate Acceptable(h: Hashing, x: Inputs) {
    && ValidRequest(x.request) && ValidPolicy(x.policy) && ValidEvidence(x.evidence) && ValidPreview(x.preview)
    && AboutItsRequest(h, x.request, x.evidence, x.preview, x.policy)
    && 0 < x.ttl <= 3600 && x.request.createdAt <= x.at < x.request.expiresAt
    && (x.key.Some? <==> x.keyId.Some?) && (x.key.Some? ==> x.key.value != [] && NonBlank(x.keyId.value))
  }

  lemma AcceptedExactlyWhen(h: Hashing, x: Inputs)
    ensures InputRefusal(h, x).Ok? <==> Acceptable(h, x)
  {
  }

  /** What the verifier promises of a record at an instant, each part in the record's own fields. */
  ghost predicate Trustworthy(h: Hashing, r: Receipt, at: Instant, key: Option<Key>) {
    && ValidRecords(r) && AboutItsRequest(h, r.request, r.evidence, r.preview, r.policy)
    && Authentic(h, r, key) && Powerless(r) && InItsTime(r) && r.evaluatedAt <= at < r.expiresAt
    && r.decision == Decide(r.request, r.evidence, r.preview, r.policy, r.evaluatedAt, r.profile == HmacSha256)
    && forall t :: r.evaluatedAt <= t < r.expiresAt && r.decision.outcome != Unavailable
                   ==> WithinDependencies(r.request, r.evidence, r.preview, r.policy, t)
  }

  /** Each check of the verifier in its place. */
  lemma VerifiedIsChecked(h: Hashing, r: Receipt, at: Instant, key: Option<Key>)
    ensures Verify(h, r, at, key).Ok?
            <==> && IdentityShape(ID_PREFIX, r.receiptId, r.recordHash) && r.evaluatedAt < r.expiresAt && r.evaluatedAt <= at < r.expiresAt
                 && CheckRecords(r).Ok? && CheckBinding(h, r).Ok? && CheckSeal(h, r, key).Ok? && CheckDecision(r).Ok?
  {
  }

  lemma RecordsCheckedExactlyWhen(r: Receipt)
    ensures CheckRecords(r).Ok?
            <==> && ValidRecords(r) && IntegrityShape(r) && DecisionShape(r.decision)
                 && r.request.createdAt <= r.evaluatedAt < r.request.expiresAt
  {
  }

  /** The ceiling, instant by instant: the record's whole life lies inside what its evidence and its hour allow. */
  lemma CeilingExactlyWhen(r: Receipt)
    requires ValidRecords(r) && r.evaluatedAt < r.request.expiresAt && r.evaluatedAt < r.expiresAt
    ensures r.expiresAt <= Ceiling(r.request, r.evidence, r.preview, r.policy, r.evaluatedAt, 3600, r.decision.outcome != Unavailable)
            <==> r.expiresAt <= r.request.expiresAt && r.expiresAt <= r.evaluatedAt + 3_600_000_000
                 && forall t :: r.evaluatedAt <= t < r.expiresAt && r.decision.outcome != Unavailable
                                ==> WithinDependencies(r.request, r.evidence, r.preview, r.policy, t)
  {
    var protect := r.decision.outcome != Unavailable;
    forall t ensures t < Ceiling(r.request, r.evidence, r.preview, r.policy, r.evaluatedAt, 3600, protect)
                     <==> WithinOwnWindow(r.request, r.evaluatedAt, 3600, t)
                          && (protect ==> WithinDependencies(r.request, r.evidence, r.preview, r.policy, t))
    {
      CeilingMeaning(r.request, r.evidence, r.preview, r.policy, r.evaluatedAt, 3600, protect, t);
    }
    assert WithinOwnWindow(r.request, r.evaluatedAt, 3600, r.expiresAt - 1)
           <==> r.expiresAt <= r.request.expiresAt && r.expiresAt <= r.evaluatedAt + 3_600_000_000;
  }

  /** What its policy makes of it decides the record, and a live pass is always authenticated. */
  lemma DecisionCheckedExactlyWhen(r: Receipt)
    requires CheckRecords(r).Ok? && r.evaluatedAt < r.expiresAt
    ensures CheckDecision(r).Ok?
            <==> && r.decision == Decide(r.request, r.evidence, r.preview, r.policy, r.evaluatedAt, r.profile == HmacSha256)
                 && r.expiresAt <= Ceiling(r.request, r.evidence, r.preview, r.policy, r.evaluatedAt, 3600, r.decision.outcome != Unavailable)
  {
    if r.request.mode == Live && r.profile != HmacSha256 {
      UnauthenticatedLiveIsUnavailable(r.request, r.evidence, r.preview, r.policy, r.evaluatedAt);
    }
  }

  lemma TrustworthyIsWellFormed(h: Hashing, r: Receipt, at: Instant, key: Option<Key>)
    requires Digests(h) && Trustworthy(h, r, at, key)
    ensures CheckRecords(r).Ok?
  {
    ReasonsAreWellFormed(r.request, r.evidence, r.preview, r.policy, r.evaluatedAt, r.profile == HmacSha256);
    assert IntegrityShape(r) by {
      assert r.signature.Some? ==> IsDigest(r.signature.value);
    }
    RecordsCheckedExactlyWhen(r);
  }

  lemma CheckedIsTrustworthy(h: Hashing, r: Receipt, at: Instant, key: Option<Key>)
    requires CheckRecords(r).Ok? && CheckBinding(h, r).Ok? && r.evaluatedAt < r.expiresAt && r.evaluatedAt <= at < r.expiresAt
    ensures var checked := IdentityShape(ID_PREFIX, r.receiptId, r.recordHash) && CheckSeal(h, r, key).Ok? && CheckDecision(r).Ok?;
            (checked ==> Trustworthy(h, r, at, key)) && (Digests(h) && Trustworthy(h, r, at, key) ==> checked)
  {
    RecordsCheckedExactlyWhen(r);
    BindingMeans(h, r);
    AuthenticExactlyWhen(h, r, key);
    DecisionCheckedExactlyWhen(r);
    CeilingExactlyWhen(r);
  }

  /** The verifier accepts exactly the records that keep every one of its promises. */
  lemma VerifiedExactlyWhen(h: Hashing, r: Receipt, at: Instant, key: Option<Key>)
    ensures Verify(h, r, at, key).Ok? ==> Trustworthy(h, r, at, key)
    ensures Digests(h) && Trustworthy(h, r, at, key) ==> Verify(h, r, at, key).Ok?
  {
    VerifiedIsChecked(h, r, at, key);
    BindingMeans(h, r);
    if Digests(h) && Trustworthy(h, r, at, key) {
      TrustworthyIsWellFormed(h, r, at, key);
    }
    if CheckRecords(r).Ok? && CheckBinding(h, r).Ok? && r.evaluatedAt < r.expiresAt && r.evaluatedAt <= at < r.expiresAt {
      CheckedIsTrustworthy(h, r, at, key);
    }
  }

  /** What issuing answers, as a function of the inputs. */
  predicate Refused(h: Hashing, x: Inputs, error: Error) {
    if InputRefusal(h, x).Err? then error == InputRefusal(h, x).error
    else IssuedExpiry(x) <= x.at && error == NoSafeWindow
  }

  function IfVerified(check: Result<bool, Error>, r: Receipt): Result<Receipt, Error> {
    match check
    case Ok(_) => Ok(r)
    case Err(error) => Err(error)
  }

  /**
   * Issues a receipt and verifies its own work before handing it out, exactly for acceptable inputs with a window.
   * The self-check never fails, and the result verifies with the same key at every instant of its window and at no other.
   */
  method Issue(h: Hashing, x: Inputs) returns (result: Result<Receipt, Error>)
    requires Digests(h)
    ensures result.Err? ==> Refused(h, x, result.error)
    ensures result.Ok? <==> Acceptable(h, x) && x.at < IssuedExpiry(x)
    ensures result.Ok? ==> InputRefusal(h, x).Ok? && Binds(result.value, x) && result.value.expiresAt > x.at
    ensures result.Ok? ==> Trustworthy(h, result.value, x.at, x.key)
    ensures result.Ok? ==> forall t :: Verify(h, result.value, t, x.key).Ok?
                                       <==> result.value.evaluatedAt <= t < result.value.expiresAt
  {
    var refusal := InputRefusal(h, x);
    AcceptedExactlyWhen(h, x);
    if refusal.Err? {
      return Err(refusal.error);
    }
    var authenticated := x.key.Some?;
    var decision := EvaluateDecision(x.request, x.evidence, x.preview, x.policy, x.at, authenticated);
    var expiresAt := ReceiptExpiryCeiling(x.request, x.evidence, x.preview, x.policy, x.at, x.ttl, decision.outcome != Unavailable);
    if expiresAt <= x.at {
      return Err(NoSafeWindow);
    }
    var receipt := Receipt("", "", x.at, expiresAt, x.request, h.request(x.request), x.policy, h.policy(x.policy),
                           x.evidence, x.preview, decision, x.issuer, if authenticated then HmacSha256 else Sha256,
                           x.keyId, None, BOUNDARY);
    var digest := Digest(h, receipt);
    ghost var draft := receipt;
    receipt := receipt.(receiptId := IdOf(digest));
    receipt := receipt.(recordHash := digest);
    if x.key.Some? {
      receipt := receipt.(signature := Some(h.hmac(x.key.value, digest)));
    }
    DigestIgnoresSeal(h, draft, receipt.receiptId, receipt.recordHash, receipt.signature);
    forall t ensures Verify(h, receipt, t, x.key).Ok? <==> receipt.evaluatedAt <= t < receipt.expiresAt {
      IssuedReceiptVerifies(h, x, receipt, t);
    }
    VerifiedExactlyWhen(h, receipt, x.at, x.key);
    return IfVerified(Verify(h, receipt, x.at, x.key), receipt);
  }

  lemma RefusedForWindow(h: Hashing, x: Inputs)
    requires InputRefusal(h, x).Ok?
    ensures Refused(h, x, NoSafeWindow) <==> IssuedExpiry(x) <= x.at
  {
  }

  lemma NoWindowForInputs(x: Inputs)
    requires ValidEvidence(x.evidence) && ValidPreview(x.preview) && x.at < x.request.expiresAt && x.ttl > 0
    requires IssuedDecision(x).outcome != Unavailable
    ensures IssuedExpiry(x) <= x.at <==> SomeAtAgeLimit(x.evidence, x.policy, x.at)
  {
    NoWindowExactlyAtAgeLimit(x.request, x.evidence, x.preview, x.policy, x.at, x.key.Some?, x.ttl);
  }

  /** On inputs the issuer accepts, only evidence exactly at its age limit is refused for want of a window. */
  lemma RefusedOnlyAtAgeLimit(h: Hashing, x: Inputs)
    requires InputRefusal(h, x).Ok? && IssuedDecision(x).outcome != Unavailable
    ensures Refused(h, x, NoSafeWindow)
            <==> SomeAtAgeLimit(x.evidence, x.policy, x.at)
  {
    AcceptedRecords(h, x);
    RefusedForWindow(h, x);
    NoWindowForInputs(x);
  }

  // ----- what an accepted receipt guarantees -----

  /** An accepted receipt names its own request and policy by their hashes. */
  lemma VerifiedIsBound(h: Hashing, r: Receipt, at: Instant, key: Option<Key>)
    requires Verify(h, r, at, key).Ok?
    ensures ValidRequest(r.request) && r.requestHash == h.request(r.request) && r.policyHash == h.policy(r.policy)
  {
    assert CheckRecords(r).Ok? && CheckBinding(h, r).Ok?;
  }

  /** Its decision is enforced unless the request only observes. */
  lemma VerifiedIsEnforced(h: Hashing, r: Receipt, at: Instant, key: Option<Key>)
    requires Verify(h, r, at, key).Ok?
    ensures r.decision.enforced == (r.request.mode != Observe)
  {
    assert CheckRecords(r).Ok? && CheckDecision(r).Ok?;
  }

  /** An accepted decision, unless unavailable, is what the policy says at every instant of the receipt's life. */
  lemma WholeLifeTruth(h: Hashing, r: Receipt, at: Instant, key: Option<Key>, t: Instant)
    requires Verify(h, r, at, key).Ok? && r.decision.outcome != Unavailable
    requires r.evaluatedAt <= t < r.expiresAt
    ensures CheckRecords(r).Ok?
    ensures Decide(r.request, r.evidence, r.preview, r.policy, t, r.profile == HmacSha256) == r.decision
  {
    var authenticated := r.profile == HmacSha256;
    DecisionHoldsBelowCeiling(r.request, r.evidence, r.preview, r.policy, r.evaluatedAt, authenticated, 3600, t);
  }

  /** The digest does not collide on these two records. */
  predicate NoCollision(h: Hashing, r: Receipt, s: Receipt) {
    Digest(h, r) == Digest(h, s) ==> Unsigned(r) == Unsigned(s)
  }

  /** Without a collision the record hash names the receipt: nothing in it can change and still verify. */
  lemma RecordHashNamesReceipt(h: Hashing, r: Receipt, s: Receipt, at: Instant, later: Instant, key: Option<Key>)
    requires NoCollision(h, r, s)
    requires Verify(h, r, at, key).Ok? && Verify(h, s, later, key).Ok? && r.recordHash == s.recordHash
    ensures r == s
  {
    assert CheckSeal(h, r, key).Ok? && CheckSeal(h, s, key).Ok?;
    assert IntegrityShape(r) && IntegrityShape(s);
  }

  /** A receipt that verifies with a key verifies with another exactly when both give it the same keyed digest. */
  lemma OnlyTheSigningKeyVerifies(h: Hashing, r: Receipt, at: Instant, key: Option<Key>, other: Option<Key>)
    requires Verify(h, r, at, key).Ok?
    ensures Verify(h, r, at, other).Ok?
            <==> other == key || (key.Some? && other.Some? && other.value != []
                                  && h.hmac(other.value, r.recordHash) == h.hmac(key.value, r.recordHash))
  {
    assert CheckSeal(h, r, key).Ok?;
    assert Verify(h, r, at, other).Ok? <==> CheckSeal(h, r, other).Ok?;
  }
}
