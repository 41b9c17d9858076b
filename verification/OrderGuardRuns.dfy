/** Runs of the paper-order gateway that do reach the broker, so that what is proved of such runs is not empty. */
module OrderGuardRuns {
  import opened Basics
  import opened TradeSafety
  import opened Examples
  import R = TradeSafetyReceipts
  import opened ReplayGuard
  import opened OrderGuard

  /** A receipt that the issuer made for a paper order of this lane, and that says PASS. */
  predicate IssuedPass(h: R.Hashing, b: Binding, key: Option<R.Key>, x: R.Inputs, receipt: R.Receipt) {
    && R.InputRefusal(h, x).Ok? && R.IssuedExpiry(x) > x.at && R.Binds(receipt, x) && R.Sealed(h, receipt, key) && x.key == key
    && x.request.mode == Paper && receipt.decision.outcome == Pass && BindingMismatch(x.request, receipt, b).None?
  }

  function Placed(receipt: R.Receipt, clock: Instant, claimClock: Instant): Submission {
    Submission(receipt.request, receipt, Some(clock), Some(claimClock))
  }

  /** An issued PASS is let through at every instant of its window. */
  lemma IssuedPassIsAuthorized(h: R.Hashing, b: Binding, key: Option<R.Key>, x: R.Inputs, receipt: R.Receipt, at: Instant)
    requires R.Digests(h) && IssuedPass(h, b, key, x, receipt) && receipt.evaluatedAt <= at < receipt.expiresAt
    ensures VerifyOrder(h, receipt.request, receipt, at, b, key).None?
  {
    R.IssuedReceiptVerifies(h, x, receipt, at);
    AuthorizedExactlyWhen(h, receipt.request, receipt, at, b, key);
  }

  /** Its first claim, on an empty guard with room for one, takes the order to the broker. */
  lemma IssuedPassReaches(h: R.Hashing, max: nat, b: Binding, key: Option<R.Key>, x: R.Inputs, receipt: R.Receipt,
                          clock: Instant, claimClock: Instant, rest: seq<Submission>)
    requires R.Digests(h) && IssuedPass(h, b, key, x, receipt) && max > 0
    requires receipt.evaluatedAt <= clock < receipt.expiresAt && claimClock < receipt.expiresAt
    ensures Reaches(h, max, b, key, [Placed(receipt, clock, claimClock)] + rest, 0)
    ensures StateAfter(h, max, b, key, [Placed(receipt, clock, claimClock)] + rest, 1)
            == Guard(map[receipt.receiptId := receipt.expiresAt], Some(claimClock))
  {
    var run := [Placed(receipt, clock, claimClock)] + rest;
    IssuedPassIsAuthorized(h, b, key, x, receipt, clock);
    assert run[0] == Placed(receipt, clock, claimClock);
    assert StateAfter(h, max, b, key, run, 0) == EMPTY;
    assert Prune(map[], claimClock) == map[];
  }

  /** An authorised order reaches the broker exactly when its claim is granted. */
  lemma AuthorizedReachesByClaim(h: R.Hashing, max: nat, b: Binding, key: Option<R.Key>, run: seq<Submission>, k: nat)
    requires k < |run| && run[k].clock.Some?
    requires VerifyOrder(h, run[k].proposed, run[k].receipt, run[k].clock.value, b, key).None?
    ensures Reaches(h, max, b, key, run, k)
            <==> Step(StateAfter(h, max, b, key, run, k), max, run[k].receipt.receiptId, run[k].receipt.expiresAt,
                      run[k].claimClock).1 == Answered(true)
  {
  }

  /**
   * A second issued PASS reaches the broker behind a first exactly when its identity is another one and the guard
   * has room for it, or the first has expired by then, be the identities equal or not.
   */
  lemma SecondPassReachesExactlyWhen(h: R.Hashing, max: nat, b: Binding, key: Option<R.Key>,
                                     x: R.Inputs, first: R.Receipt, clock: Instant, claimClock: Instant,
                                     y: R.Inputs, second: R.Receipt, later: Instant, laterClaim: Instant)
    requires R.Digests(h) && IssuedPass(h, b, key, x, first) && IssuedPass(h, b, key, y, second) && max > 0
    requires first.evaluatedAt <= clock < first.expiresAt && claimClock < first.expiresAt
    requires second.evaluatedAt <= later < second.expiresAt && claimClock <= laterClaim < second.expiresAt
    ensures Reaches(h, max, b, key, [Placed(first, clock, claimClock), Placed(second, later, laterClaim)], 1)
            <==> first.expiresAt <= laterClaim || (first.receiptId != second.receiptId && max > 1)
  {
    var run := [Placed(first, clock, claimClock), Placed(second, later, laterClaim)];
    assert [Placed(first, clock, claimClock)] + [Placed(second, later, laterClaim)] == run;
    IssuedPassReaches(h, max, b, key, x, first, clock, claimClock, [Placed(second, later, laterClaim)]);
    IssuedPassIsAuthorized(h, b, key, y, second, later);
    AuthorizedReachesByClaim(h, max, b, key, run, 1);
    ClaimBehindOne(max, first.receiptId, first.expiresAt, claimClock, second.receiptId, second.expiresAt, laterClaim);
  }

  lemma ClaimBehindOne(max: nat, id: string, expiry: Instant, clock: Instant, other: string, otherExpiry: Instant, later: Instant)
    requires clock <= later < otherExpiry && max > 0
    ensures Step(Guard(map[id := expiry], Some(clock)), max, other, otherExpiry, Some(later)).1 == Answered(true)
            <==> expiry <= later || (id != other && max > 1)
  {
    var used := map[id := expiry];
    if expiry <= later {
      assert Prune(used, later) == map[];
    } else {
      assert Prune(used, later) == used && |used| == 1;
    }
  }

  // ----- concrete orders -----

  const KEY: R.Key := [1]

  function PassInputs(h: R.Hashing, at: Instant): R.Inputs {
    var requestHash := h.request(Asked(at));
    R.Inputs(Asked(at), CalmEvidence(requestHash, at, at, Num(1000.0)), POLICY, Unpreviewed(requestHash, at), at, ISSUER, 60,
             Some(KEY), Some("key"))
  }

  function Lane(h: R.Hashing): Binding {
    Binding("account", "tenant", "operator", "agent", "runtime", None, "policy", "1", h.policy(POLICY), ISSUER, Some("key"))
  }

  /** What the issuer makes of accepted inputs. */
  function ReceiptFor(h: R.Hashing, x: R.Inputs): (r: R.Receipt)
    requires ValidEvidence(x.evidence) && ValidPreview(x.preview)
    ensures R.Binds(r, x) && R.Sealed(h, r, x.key)
  {
    var draft := R.Receipt("", "", x.at, R.IssuedExpiry(x), x.request, h.request(x.request), x.policy, h.policy(x.policy),
                           x.evidence, x.preview, R.IssuedDecision(x), x.issuer, if x.key.Some? then R.HmacSha256 else R.Sha256,
                           x.keyId, None, R.BOUNDARY);
    var digest := R.Digest(h, draft);
    var signature := if x.key.Some? then Some(h.hmac(x.key.value, digest)) else None;
    R.DigestIgnoresSeal(h, draft, R.IdOf(digest), digest, signature);
    draft.(receiptId := R.IdOf(digest), recordHash := digest, signature := signature)
  }

  lemma InputsAreAccepted(h: R.Hashing, at: Instant)
    ensures R.InputRefusal(h, PassInputs(h, at)).Ok?
  {
    AskedIsValid(at);
    PolicyIsValid();
    CalmEvidenceIsValid(h.request(Asked(at)), at, at, Num(1000.0));
    assert R.NonBlank("key") by {
      assert !IsSpace("key"[0]);
    }
  }

  lemma InputsPass(h: R.Hashing, at: Instant)
    ensures ValidEvidence(PassInputs(h, at).evidence) && ValidPreview(PassInputs(h, at).preview)
    ensures R.IssuedDecision(PassInputs(h, at)).outcome == Pass
    ensures at < R.IssuedExpiry(PassInputs(h, at)) <= at + 60 * SECOND
  {
    CalmEvidencePasses(Asked(at), h.request(Asked(at)), at, at, Num(1000.0), true);
    CalmWindow(Asked(at), h.request(Asked(at)), at, at, Num(1000.0), true);
  }

  /** A receipt for an order asked for at a given time, good for up to a minute. */
  lemma OrderIsPass(h: R.Hashing, at: Instant) returns (x: R.Inputs, receipt: R.Receipt)
    ensures IssuedPass(h, Lane(h), Some(KEY), x, receipt)
    ensures x == PassInputs(h, at) && receipt.evaluatedAt == at < receipt.expiresAt <= at + 60 * SECOND
  {
    x := PassInputs(h, at);
    InputsAreAccepted(h, at);
    InputsPass(h, at);
    receipt := ReceiptFor(h, x);
  }

  function OneOrder(receipt: R.Receipt): seq<Submission> {
    [Placed(receipt, 0, 0)]
  }

  lemma OneOrderReaches(h: R.Hashing, x: R.Inputs, receipt: R.Receipt)
    requires R.Digests(h) && IssuedPass(h, Lane(h), Some(KEY), x, receipt) && receipt.evaluatedAt == 0 < receipt.expiresAt
    ensures Reaches(h, 1, Lane(h), Some(KEY), OneOrder(receipt), 0)
  {
    IssuedPassReaches(h, 1, Lane(h), Some(KEY), x, receipt, 0, 0, []);
    assert [Placed(receipt, 0, 0)] + [] == OneOrder(receipt);
  }

  /** Whatever the digests, there is an order that reaches the broker. */
  lemma AnOrderReaches(h: R.Hashing)
    requires R.Digests(h)
    ensures exists receipt :: Reaches(h, 1, Lane(h), Some(KEY), OneOrder(receipt), 0)
  {
    var x, receipt := OrderIsPass(h, 0);
    OneOrderReaches(h, x, receipt);
  }

  function MinuteApart(first: R.Receipt, second: R.Receipt): seq<Submission> {
    [Placed(first, 0, 0), Placed(second, 60 * SECOND, 60 * SECOND)]
  }

  predicate BothReach(h: R.Hashing, first: R.Receipt, second: R.Receipt) {
    var run := MinuteApart(first, second);
    Reaches(h, 1, Lane(h), Some(KEY), run, 0) && Reaches(h, 1, Lane(h), Some(KEY), run, 1)
  }

  lemma FirstReaches(h: R.Hashing, x: R.Inputs, first: R.Receipt, second: R.Receipt)
    requires R.Digests(h) && IssuedPass(h, Lane(h), Some(KEY), x, first) && first.evaluatedAt == 0 < first.expiresAt
    ensures Reaches(h, 1, Lane(h), Some(KEY), MinuteApart(first, second), 0)
  {
    var behind := Placed(second, 60 * SECOND, 60 * SECOND);
    IssuedPassReaches(h, 1, Lane(h), Some(KEY), x, first, 0, 0, [behind]);
    assert [Placed(first, 0, 0)] + [behind] == MinuteApart(first, second);
  }

  lemma SecondReaches(h: R.Hashing, x: R.Inputs, first: R.Receipt, y: R.Inputs, second: R.Receipt)
    requires R.Digests(h) && IssuedPass(h, Lane(h), Some(KEY), x, first) && IssuedPass(h, Lane(h), Some(KEY), y, second)
    requires first.evaluatedAt == 0 < first.expiresAt <= 60 * SECOND
    requires second.evaluatedAt == 60 * SECOND < second.expiresAt
    ensures Reaches(h, 1, Lane(h), Some(KEY), MinuteApart(first, second), 1)
  {
    SecondPassReachesExactlyWhen(h, 1, Lane(h), Some(KEY), x, first, 0, 0, y, second, 60 * SECOND, 60 * SECOND);
  }

  /** A minute after one order a second one reaches the broker too, be its identity another one or not. */
  lemma OrdersAMinuteApartReach(h: R.Hashing) returns (first: R.Receipt, second: R.Receipt)
    requires R.Digests(h)
    ensures BothReach(h, first, second) && first != second
    ensures R.IdOf(R.Digest(h, first)) == first.receiptId && R.IdOf(R.Digest(h, second)) == second.receiptId
  {
    var x, y;
    x, first := OrderIsPass(h, 0);
    y, second := OrderIsPass(h, 60 * SECOND);
    FirstReaches(h, x, first, second);
    SecondReaches(h, x, first, y, second);
  }

  function Zeros(): string {
    seq(64, _ => '0')
  }

  /** Digests that all collide. */
  function Colliding(): R.Hashing {
    R.Hashing((r: Request) => Zeros(), (p: Policy) => Zeros(), (r: R.Receipt) => Zeros(), (k: R.Key, d: string) => Zeros())
  }

  /** Under colliding digests two orders reach the broker on one identity. */
  lemma OneIdentityReachesTwice()
    ensures R.Digests(Colliding())
    ensures exists first, second :: BothReach(Colliding(), first, second) && first != second && first.receiptId == second.receiptId
  {
    assert IsDigest(Zeros());
    var first, second := OrdersAMinuteApartReach(Colliding());
    assert R.Digest(Colliding(), first) == R.Digest(Colliding(), second);
  }
}
