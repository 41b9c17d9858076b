/**
 * What a decision means, how long it stays true, and the expiry ceiling that is computed separately
 * from the evaluator but has to keep the decision true for the whole life of a receipt.
 */
module TradeSafetyLifetime {
  import opened Basics
  import opened ReasonLists
  import opened TradeSafety
  import opened TradeSafetyDecision

  // ----- the meaning of a decision -----

  /** A required section that supports an order: usable, known, fetched, unexpired and young enough. */
  predicate Fit(p: Product, s: Section, maxAge: int, mode: Mode, at: Instant)
    requires ValidSection(p, s)
  {
    && Usable(s.state) && !UnsafeRights(s.rights)
    && s.knowledgeTime.value <= at && s.retrievedAt <= at < s.expiresAt.value
    && at <= s.asOf.value + maxAge * SECOND
    && (mode == Live ==> s.realMoneyEligible)
  }

  predicate FitIn(p: Product, e: Evidence, ages: Ages, mode: Mode, at: Instant)
    requires ValidEvidence(e)
  {
    assert ValidSection(p, e.Of(p));
    Fit(p, e.Of(p), ages.Of(p), mode, at)
  }

  predicate AllFit(r: Request, e: Evidence, p: Policy, at: Instant)
    requires ValidEvidence(e)
  {
    forall x :: x in p.requiredProducts ==> FitIn(x, e, p.maxAgeSeconds, r.mode, at)
  }

  /** What a live order needs besides the evidence. */
  predicate LiveReady(e: Evidence, b: Preview, p: Policy, at: Instant, authenticated: bool)
    requires ValidPreview(b)
  {
    && authenticated
    && (p.liveRequiresQuote ==> e.undertow.executableQuote)
    && (p.liveRequiresPreview ==> b.state == Verified)
    && (b.state == Verified ==> b.retrievedAt <= at < b.expiresAt.value)
  }

  /** The evidence was measured for this order's size, and every capped number is there. */
  predicate Comparable(order: Order, facts: Facts, p: Policy) {
    && (order.currency != "USD" ==> !Capped(p))
    && (order.currency == "USD" ==> !Apart(FactNumber(facts.requestedSize), order.notional))
    && !OffRung(facts)
    && (p.maxExitCost.Some? ==> FactNumber(facts.worstSellCost).Some?)
    && (p.maxVenueSpread.Some? ==> FactNumber(facts.venueSpread).Some?)
  }

  predicate Ready(r: Request, e: Evidence, b: Preview, p: Policy, at: Instant, authenticated: bool)
    requires ValidEvidence(e) && ValidPreview(b)
  {
    && AllFit(r, e, p, at)
    && (r.mode == Live ==> LiveReady(e, b, p, at, authenticated))
    && Comparable(r.order, e.undertow.facts, p)
  }

  predicate Held(e: Evidence, p: Policy) {
    e.seiche.facts.regime.Some? && e.seiche.facts.regime.value in p.holdRegimes
  }

  predicate OverLimit(order: Order, facts: Facts, p: Policy) {
    || (order.currency == "USD" && Exceeds(Some(order.notional), p.maxNotional))
    || Exceeds(FactNumber(facts.worstSellCost), p.maxExitCost)
    || Exceeds(FactNumber(facts.venueSpread), p.maxVenueSpread)
  }

  /** A product gives no reason exactly when its section is fit. */
  lemma ProductSilence(p: Product, s: Section, maxAge: int, mode: Mode, at: Instant)
    requires ValidSection(p, s)
    ensures ProductReasons(p, s, maxAge, mode, at) == [] <==> Fit(p, s, maxAge, mode, at)
  {
  }

  lemma EmptyConcatenation(xs: seq<Reason>, ys: seq<Reason>)
    ensures xs + ys == [] <==> xs == [] && ys == []
  {
  }

  lemma EvidenceGrows(products: seq<Product>, e: Evidence, ages: Ages, mode: Mode, at: Instant)
    requires ValidEvidence(e) && products != []
    ensures EvidenceReasons(products, e, ages, mode, at) == []
            <==> EvidenceReasons(products[..|products| - 1], e, ages, mode, at) == []
                 && FitIn(products[|products| - 1], e, ages, mode, at)
  {
    var p, before := products[|products| - 1], products[..|products| - 1];
    assert ValidSection(p, e.Of(p));
    ProductSilence(p, e.Of(p), ages.Of(p), mode, at);
    EmptyConcatenation(EvidenceReasons(before, e, ages, mode, at), ProductReasons(p, e.Of(p), ages.Of(p), mode, at));
  }

  lemma FitGrows(products: seq<Product>, e: Evidence, ages: Ages, mode: Mode, at: Instant)
    requires ValidEvidence(e) && products != []
    ensures var n := |products| - 1;
            (forall x :: x in products ==> FitIn(x, e, ages, mode, at))
            <==> (forall x :: x in products[..n] ==> FitIn(x, e, ages, mode, at)) && FitIn(products[n], e, ages, mode, at)
  {
    var n := |products| - 1;
    assert products == products[..n] + [products[n]];
    assert forall x :: x in products <==> x in products[..n] || x == products[n];
  }

  lemma {:induction false} EvidenceSilence(products: seq<Product>, e: Evidence, ages: Ages, mode: Mode, at: Instant)
    requires ValidEvidence(e)
    ensures EvidenceReasons(products, e, ages, mode, at) == [] <==> forall x :: x in products ==> FitIn(x, e, ages, mode, at)
    decreases |products|
  {
    if products != [] {
      EvidenceSilence(products[..|products| - 1], e, ages, mode, at);
      EvidenceGrows(products, e, ages, mode, at);
      FitGrows(products, e, ages, mode, at);
    }
  }

  /** Unavailable, hold, limit and pass each hold exactly when their reading says so. */
  lemma OutcomeMeaning(r: Request, e: Evidence, b: Preview, p: Policy, at: Instant, authenticated: bool)
    requires ValidEvidence(e) && ValidPreview(b)
    ensures var outcome := Decide(r, e, b, p, at, authenticated).outcome;
            var ready, held, over := Ready(r, e, b, p, at, authenticated), Held(e, p), OverLimit(r.order, e.undertow.facts, p);
            && (outcome == Unavailable <==> !ready)
            && (outcome == Hold <==> ready && held)
            && (outcome == Limit <==> ready && !held && over)
            && (outcome == Pass <==> ready && !held && !over)
  {
    EvidenceSilence(p.requiredProducts, e, p.maxAgeSeconds, r.mode, at);
  }

  // ----- reasons are never repeated -----

  lemma DistinctConcatenation(xs: seq<Reason>, ys: seq<Reason>)
    requires Distinct(xs) && Distinct(ys) && forall x :: x in xs ==> x !in ys
    ensures Distinct(xs + ys)
  {
    var zs := xs + ys;
    forall i, j | 0 <= i < j < |zs| ensures zs[i] != zs[j] {
      if i < |xs| <= j {
        assert zs[i] in xs && zs[j] in ys;
      }
    }
  }

  lemma ClockChainAscends(p: Product, unsafe: bool, unknown: bool, unfetched: bool, expired: bool)
    ensures Ascending(When(unsafe, RightsNotUsable(p)) + When(unknown, NotYetKnown(p)) + When(unfetched, NotYetRetrieved(p))
                      + When(expired, Expired(p)), Rank, 0, 5)
  {
    var t := When(unsafe, RightsNotUsable(p));
    AscendingAppend(t, Rank, unknown, NotYetKnown(p), 0);
    t := t + When(unknown, NotYetKnown(p));
    AscendingAppend(t, Rank, unfetched, NotYetRetrieved(p), 0);
    AscendingAppend(t + When(unfetched, NotYetRetrieved(p)), Rank, expired, Expired(p), 0);
  }

  lemma ProductChainAscends(p: Product, unsafe: bool, unknown: bool, unfetched: bool, expired: bool, tooOld: bool, unreal: bool)
    ensures Ascending(When(unsafe, RightsNotUsable(p)) + When(unknown, NotYetKnown(p)) + When(unfetched, NotYetRetrieved(p))
                      + When(expired, Expired(p)) + When(tooOld, TooOld(p)) + When(unreal, NotRealMoney(p)), Rank, 0, 7)
  {
    ClockChainAscends(p, unsafe, unknown, unfetched, expired);
    var t := When(unsafe, RightsNotUsable(p)) + When(unknown, NotYetKnown(p)) + When(unfetched, NotYetRetrieved(p))
             + When(expired, Expired(p));
    AscendingAppend(t, Rank, tooOld, TooOld(p), 0);
    AscendingAppend(t + When(tooOld, TooOld(p)), Rank, unreal, NotRealMoney(p), 0);
  }

  lemma ProductReasonsAscend(p: Product, s: Section, maxAge: int, mode: Mode, at: Instant)
    requires ValidSection(p, s)
    ensures Ascending(ProductReasons(p, s, maxAge, mode, at), Rank, 0, 7)
  {
    if Usable(s.state) {
      ProductChainAscends(p, UnsafeRights(s.rights), at < s.knowledgeTime.value, at < s.retrievedAt, s.expiresAt.value <= at,
                          at - s.asOf.value > maxAge * SECOND, mode == Live && !s.realMoneyEligible);
    }
  }

  lemma {:induction false} EvidenceReasonsDistinct(products: seq<Product>, e: Evidence, ages: Ages, mode: Mode, at: Instant)
    requires ValidEvidence(e) && Distinct(products)
    ensures Distinct(EvidenceReasons(products, e, ages, mode, at))
    ensures Within(EvidenceReasons(products, e, ages, mode, at), products)
    decreases |products|
  {
    if products != [] {
      var n := |products| - 1;
      var p := products[n];
      assert ValidSection(p, e.Of(p));
      EvidenceReasonsDistinct(products[..n], e, ages, mode, at);
      ProductReasonsAscend(p, e.Of(p), ages.Of(p), mode, at);
      ProductReasonsNameTheProduct(p, e.Of(p), ages.Of(p), mode, at);
      DistinctConcatenation(EvidenceReasons(products[..n], e, ages, mode, at),
                            ProductReasons(p, e.Of(p), ages.Of(p), mode, at));
    }
  }

  lemma LiveChainAscends(unsigned: bool, unquoted: bool, unpreviewed: bool, early: bool, late: bool)
    ensures Ascending(When(unsigned, LiveAuthenticationMissing) + When(unquoted, ExecutableQuoteUnavailable)
                      + When(unpreviewed, PreviewUnavailable) + When(early, PreviewNotYetRetrieved)
                      + When(late, PreviewExpired), Rank, 7, 12)
  {
    var t := When(unsigned, LiveAuthenticationMissing);
    AscendingAppend(t, Rank, unquoted, ExecutableQuoteUnavailable, 7);
    t := t + When(unquoted, ExecutableQuoteUnavailable);
    AscendingAppend(t, Rank, unpreviewed, PreviewUnavailable, 7);
    t := t + When(unpreviewed, PreviewUnavailable);
    AscendingAppend(t, Rank, early, PreviewNotYetRetrieved, 7);
    AscendingAppend(t + When(early, PreviewNotYetRetrieved), Rank, late, PreviewExpired, 7);
  }

  lemma LiveReasonsAscend(e: Evidence, b: Preview, p: Policy, at: Instant, authenticated: bool)
    requires ValidPreview(b)
    ensures Ascending(LiveReasons(e, b, p, at, authenticated), Rank, 7, 12)
  {
    LiveChainAscends(!authenticated, p.liveRequiresQuote && !e.undertow.executableQuote, p.liveRequiresPreview && b.state != Verified,
                     b.state == Verified && at < b.retrievedAt, b.state == Verified && b.expiresAt.value <= at);
  }

  lemma SizeReasonsAscend(order: Order, facts: Facts, p: Policy)
    ensures Ascending(SizeReasons(order, facts, p), Rank, 13, 16)
  {
    var foreign := order.currency != "USD" && Capped(p);
    var resized := order.currency == "USD" && Apart(FactNumber(facts.requestedSize), order.notional);
    var t := When(foreign, UsdPolicyRequiresUsd);
    AscendingAppend(t, Rank, resized, OrderSizeMismatch, 13);
    AscendingAppend(t + When(resized, OrderSizeMismatch), Rank, OffRung(facts), PublishedRungMismatch, 13);
  }

  lemma UsdReasonsAscend(order: Order, facts: Facts, p: Policy)
    ensures Ascending(UsdReasons(order, facts, p), Rank, 13, 18)
  {
    var t := SizeReasons(order, facts, p);
    SizeReasonsAscend(order, facts, p);
    var noCost := p.maxExitCost.Some? && FactNumber(facts.worstSellCost).None?;
    AscendingAppend(t, Rank, noCost, ExitCostMissing, 13);
    AscendingAppend(t + When(noCost, ExitCostMissing), Rank,
                    p.maxVenueSpread.Some? && FactNumber(facts.venueSpread).None?, VenueSpreadMissing, 13);
  }

  lemma LimitReasonsAscend(order: Order, facts: Facts, p: Policy)
    ensures Ascending(LimitReasons(order, facts, p), Rank, 18, 21)
  {
    var over := order.currency == "USD" && Exceeds(Some(order.notional), p.maxNotional);
    var t := When(over, MaxNotionalExceeded);
    AscendingAppend(t, Rank, Exceeds(FactNumber(facts.worstSellCost), p.maxExitCost), ExitCostExceeded, 18);
    t := t + When(Exceeds(FactNumber(facts.worstSellCost), p.maxExitCost), ExitCostExceeded);
    AscendingAppend(t, Rank, Exceeds(FactNumber(facts.venueSpread), p.maxVenueSpread), VenueSpreadExceeded, 18);
  }

  /** Reasons below rank `mid` followed by reasons from `mid` on stay distinct. */
  lemma DistinctAbove(xs: seq<Reason>, ys: seq<Reason>, mid: nat, high: nat)
    requires Distinct(xs) && RanksBelow(xs, mid) && Ascending(ys, Rank, mid, high) && mid <= high
    ensures Distinct(xs + ys) && RanksBelow(xs + ys, high)
  {
    DistinctConcatenation(xs, ys);
    assert forall x :: x in xs + ys ==> x in xs || x in ys;
  }

  lemma UnavailableReasonsDistinct(r: Request, e: Evidence, b: Preview, p: Policy, at: Instant, authenticated: bool)
    requires ValidEvidence(e) && ValidPreview(b) && Distinct(p.requiredProducts)
    ensures Distinct(UnavailableReasons(r, e, b, p, at, authenticated))
    ensures forall x :: x in UnavailableReasons(r, e, b, p, at, authenticated) ==> Rank(x) < 18 && Rank(x) != 12
  {
    var evidence := EvidenceReasons(p.requiredProducts, e, p.maxAgeSeconds, r.mode, at);
    var live := if r.mode == Live then LiveReasons(e, b, p, at, authenticated) else [];
    var usd := UsdReasons(r.order, e.undertow.facts, p);
    EvidenceReasonsDistinct(p.requiredProducts, e, p.maxAgeSeconds, r.mode, at);
    LiveReasonsAscend(e, b, p, at, authenticated);
    UsdReasonsAscend(r.order, e.undertow.facts, p);
    assert RanksBelow(evidence, 7) && Ascending(live, Rank, 7, 12);
    DistinctAbove(evidence, live, 7, 12);
    assert RanksBelow(evidence + live, 13);
    DistinctAbove(evidence + live, usd, 13, 18);
    forall x | x in evidence + live + usd ensures Rank(x) < 18 && Rank(x) != 12 {
      assert x in evidence + live || x in usd;
    }
  }

  lemma ListsInTurnAreDistinct(unavailable: seq<Reason>, holds: seq<Reason>, limits: seq<Reason>)
    requires Distinct(unavailable) && forall x :: x in unavailable ==> Rank(x) < 18 && Rank(x) != 12
    requires Ascending(holds, Rank, 12, 13) && Ascending(limits, Rank, 18, 21)
    ensures Distinct(unavailable + holds + limits) && Distinct(holds + limits) && Distinct(limits)
  {
    forall x | x in unavailable ensures x !in holds {
      assert Rank(x) != 12;
    }
    DistinctConcatenation(unavailable, holds);
    assert forall x :: x in unavailable + holds ==> x in unavailable || x in holds;
    assert RanksBelow(unavailable + holds, 18);
    DistinctAbove(unavailable + holds, limits, 18, 21);
    DistinctAbove(holds, limits, 18, 21);
  }

  lemma VerdictIsWellFormed(unavailable: seq<Reason>, holds: seq<Reason>, limits: seq<Reason>, enforced: bool, p: Policy)
    requires Distinct(unavailable) && forall x :: x in unavailable ==> Rank(x) < 18 && Rank(x) != 12
    requires Ascending(holds, Rank, 12, 13) && Ascending(limits, Rank, 18, 21)
    ensures Verdict(unavailable, holds, limits, enforced, p).reasons != []
    ensures Distinct(Verdict(unavailable, holds, limits, enforced, p).reasons)
  {
    ListsInTurnAreDistinct(unavailable, holds, limits);
  }

  lemma HoldReasonsAscend(e: Evidence, p: Policy)
    ensures Ascending(HoldReasons(e, p), Rank, 12, 13)
  {
  }

  /** Reason lists are never empty and never repeat a code, which is what a receipt's validator demands. */
  lemma ReasonsAreWellFormed(r: Request, e: Evidence, b: Preview, p: Policy, at: Instant, authenticated: bool)
    requires ValidEvidence(e) && ValidPreview(b) && Distinct(p.requiredProducts)
    ensures Decide(r, e, b, p, at, authenticated).reasons != []
    ensures Distinct(Decide(r, e, b, p, at, authenticated).reasons)
  {
    UnavailableReasonsDistinct(r, e, b, p, at, authenticated);
    LimitReasonsAscend(r.order, e.undertow.facts, p);
    HoldReasonsAscend(e, p);
    VerdictIsWellFormed(UnavailableReasons(r, e, b, p, at, authenticated), HoldReasons(e, p),
                        LimitReasons(r.order, e.undertow.facts, p), r.mode != Observe, p);
  }

  // ----- the expiry ceiling -----

  function Min(x: int, y: int): int {
    if x <= y then x else y
  }

  /** The earliest of the bound and the dependencies of the usable required sections. */
  function EvidenceCeiling(products: seq<Product>, e: Evidence, ages: Ages, bound: Instant): Instant
    requires ValidEvidence(e)
  {
    if products == [] then bound
    else
      var p := products[|products| - 1];
      var s := e.Of(p);
      var rest := EvidenceCeiling(products[..|products| - 1], e, ages, bound);
      assert ValidSection(p, s);
      if Usable(s.state) then Min(Min(rest, s.expiresAt.value), s.asOf.value + ages.Of(p) * SECOND) else rest
  }

  function Ceiling(r: Request, e: Evidence, b: Preview, p: Policy, issuedAt: Instant, ttl: int, protect: bool): Instant
    requires ValidEvidence(e) && ValidPreview(b)
  {
    var bound := Min(r.expiresAt, issuedAt + ttl * SECOND);
    if !protect then bound
    else
      var evidence := EvidenceCeiling(p.requiredProducts, e, p.maxAgeSeconds, bound);
      if r.mode == Live && b.state == Verified then Min(evidence, b.expiresAt.value) else evidence
  }

  /** The least element of a non-empty list. */
  function Least(xs: seq<int>): int
    requires xs != []
  {
    if |xs| == 1 then xs[0] else Min(Least(xs[..|xs| - 1]), xs[|xs| - 1])
  }

  lemma LeastOfAppend(xs: seq<int>, x: int)
    requires xs != []
    ensures Least(xs + [x]) == Min(Least(xs), x)
  {
    assert (xs + [x])[..|xs|] == xs;
  }

  method LeastBoundary(xs: seq<int>) returns (m: int)
    requires xs != []
    ensures m == Least(xs)
  {
    m := xs[0];
    var i := 1;
    assert xs[..1] == [xs[0]];
    while i < |xs|
      invariant 1 <= i <= |xs| && m == Least(xs[..i])
    {
      LeastOfAppend(xs[..i], xs[i]);
      assert xs[..i + 1] == xs[..i] + [xs[i]];
      if xs[i] < m {
        m := xs[i];
      }
      i := i + 1;
    }
    assert xs[..i] == xs;
  }

  /** The ceiling after one more section. */
  function Lowered(ceiling: Instant, x: Product, s: Section, maxAge: int): Instant
    requires ValidSection(x, s)
  {
    if Usable(s.state) then Min(Min(ceiling, s.expiresAt.value), s.asOf.value + maxAge * SECOND) else ceiling
  }

  lemma CeilingOfPrefix(products: seq<Product>, i: nat, e: Evidence, ages: Ages, bound: Instant)
    requires ValidEvidence(e) && i < |products|
    ensures ValidSection(products[i], e.Of(products[i]))
    ensures EvidenceCeiling(products[..i + 1], e, ages, bound)
            == Lowered(EvidenceCeiling(products[..i], e, ages, bound), products[i], e.Of(products[i]), ages.Of(products[i]))
  {
    assert products[..i + 1][..i] == products[..i];
  }

  /** The boundaries of one section, if it is usable. */
  method AppendBoundaries(boundaries: seq<int>, x: Product, s: Section, maxAge: int) returns (r: seq<int>)
    requires ValidSection(x, s) && boundaries != []
    ensures r != [] && Least(r) == Lowered(Least(boundaries), x, s, maxAge)
  {
    r := boundaries;
    if Usable(s.state) {
      LeastOfAppend(r, s.expiresAt.value);
      r := r + [s.expiresAt.value];
      LeastOfAppend(r, s.asOf.value + maxAge * SECOND);
      r := r + [s.asOf.value + maxAge * SECOND];
    }
  }

  method EvidenceBoundaries(bounds: seq<int>, products: seq<Product>, e: Evidence, ages: Ages) returns (boundaries: seq<int>)
    requires ValidEvidence(e) && bounds != []
    ensures boundaries != [] && Least(boundaries) == EvidenceCeiling(products, e, ages, Least(bounds))
  {
    boundaries := bounds;
    var i := 0;
    while i < |products|
      invariant 0 <= i <= |products| && boundaries != []
      invariant Least(boundaries) == EvidenceCeiling(products[..i], e, ages, Least(bounds))
    {
      CeilingOfPrefix(products, i, e, ages, Least(bounds));
      boundaries := AppendBoundaries(boundaries, products[i], e.Of(products[i]), ages.Of(products[i]));
      i := i + 1;
    }
    assert products[..i] == products;
  }

  method ReceiptExpiryCeiling(r: Request, e: Evidence, b: Preview, p: Policy, issuedAt: Instant, ttl: int, protect: bool)
    returns (c: Instant)
    requires ValidEvidence(e) && ValidPreview(b)
    ensures c == Ceiling(r, e, b, p, issuedAt, ttl, protect)
  {
    var boundaries := [r.expiresAt, issuedAt + ttl * SECOND];
    LeastOfAppend([r.expiresAt], issuedAt + ttl * SECOND);
    assert [r.expiresAt] + [issuedAt + ttl * SECOND] == boundaries;
    if protect {
      boundaries := EvidenceBoundaries(boundaries, p.requiredProducts, e, p.maxAgeSeconds);
      if r.mode == Live && b.state == Verified {
        LeastOfAppend(boundaries, b.expiresAt.value);
        boundaries := boundaries + [b.expiresAt.value];
      }
    }
    c := LeastBoundary(boundaries);
  }

  /** An instant before every expiry and age boundary of a usable section. */
  predicate Spans(p: Product, s: Section, maxAge: int, t: Instant)
    requires ValidSection(p, s)
  {
    Usable(s.state) ==> t < s.expiresAt.value && t < s.asOf.value + maxAge * SECOND
  }

  lemma {:induction false} EvidenceCeilingMeaning(products: seq<Product>, e: Evidence, ages: Ages, bound: Instant, t: Instant)
    requires ValidEvidence(e)
    ensures t < EvidenceCeiling(products, e, ages, bound)
            <==> t < bound && forall x :: x in products ==> Spans(x, e.Of(x), ages.Of(x), t)
    decreases |products|
  {
    if products != [] {
      var n := |products| - 1;
      EvidenceCeilingMeaning(products[..n], e, ages, bound, t);
      assert products == products[..n] + [products[n]];
      assert ValidSection(products[n], e.Of(products[n]));
    }
  }

  predicate WithinOwnWindow(r: Request, issuedAt: Instant, ttl: int, t: Instant) {
    t < r.expiresAt && t < issuedAt + ttl * SECOND
  }

  predicate WithinDependencies(r: Request, e: Evidence, b: Preview, p: Policy, t: Instant)
    requires ValidEvidence(e) && ValidPreview(b)
  {
    && (forall x :: x in p.requiredProducts ==> Spans(x, e.Of(x), p.maxAgeSeconds.Of(x), t))
    && (r.mode == Live && b.state == Verified ==> t < b.expiresAt.value)
  }

  /** An instant is below the ceiling exactly when it is inside every window the ceiling protects. */
  lemma CeilingMeaning(r: Request, e: Evidence, b: Preview, p: Policy, issuedAt: Instant, ttl: int, protect: bool, t: Instant)
    requires ValidEvidence(e) && ValidPreview(b)
    ensures t < Ceiling(r, e, b, p, issuedAt, ttl, protect)
            <==> WithinOwnWindow(r, issuedAt, ttl, t) && (protect ==> WithinDependencies(r, e, b, p, t))
  {
    EvidenceCeilingMeaning(p.requiredProducts, e, p.maxAgeSeconds, Min(r.expiresAt, issuedAt + ttl * SECOND), t);
  }

  // ----- the decision over time -----

  /** Being ready survives up to, and ends right after, the dependencies of the evidence. */
  lemma ReadyOverTime(r: Request, e: Evidence, b: Preview, p: Policy, at: Instant, authenticated: bool, t: Instant)
    requires ValidEvidence(e) && ValidPreview(b) && at <= t
    requires Ready(r, e, b, p, at, authenticated)
    ensures WithinDependencies(r, e, b, p, t) ==> Ready(r, e, b, p, t, authenticated)
    ensures Ready(r, e, b, p, t, authenticated) ==> WithinDependencies(r, e, b, p, t - 1)
  {
    forall x | x in p.requiredProducts
      ensures ValidSection(x, e.Of(x))
      ensures Spans(x, e.Of(x), p.maxAgeSeconds.Of(x), t) ==> Fit(x, e.Of(x), p.maxAgeSeconds.Of(x), r.mode, t)
      ensures Fit(x, e.Of(x), p.maxAgeSeconds.Of(x), r.mode, t) ==> Spans(x, e.Of(x), p.maxAgeSeconds.Of(x), t - 1)
    {
      assert FitIn(x, e, p.maxAgeSeconds, r.mode, at);
    }
  }

  /** Equal readings give equal decisions: nothing but readiness depends on the clock. */
  lemma ReadyDecisionsAgree(r: Request, e: Evidence, b: Preview, p: Policy, at: Instant, authenticated: bool, t: Instant)
    requires ValidEvidence(e) && ValidPreview(b)
    requires Ready(r, e, b, p, at, authenticated) && Ready(r, e, b, p, t, authenticated)
    ensures Decide(r, e, b, p, at, authenticated) == Decide(r, e, b, p, t, authenticated)
  {
    OutcomeMeaning(r, e, b, p, at, authenticated);
    OutcomeMeaning(r, e, b, p, t, authenticated);
  }

  /** A decision other than unavailable is given again at every later instant below the ceiling. */
  lemma DecisionHoldsBelowCeiling(r: Request, e: Evidence, b: Preview, p: Policy, at: Instant, authenticated: bool,
                                  ttl: int, t: Instant)
    requires ValidEvidence(e) && ValidPreview(b)
    requires Decide(r, e, b, p, at, authenticated).outcome != Unavailable
    requires at <= t < Ceiling(r, e, b, p, at, ttl, true)
    ensures Decide(r, e, b, p, t, authenticated) == Decide(r, e, b, p, at, authenticated)
  {
    OutcomeMeaning(r, e, b, p, at, authenticated);
    CeilingMeaning(r, e, b, p, at, ttl, true, t);
    ReadyOverTime(r, e, b, p, at, authenticated, t);
    ReadyDecisionsAgree(r, e, b, p, at, authenticated, t);
  }

  /**
   * The ceiling is not cautious: past it, either the receipt's own window is over or the same policy
   * would already answer unavailable.
   */
  lemma CeilingIsTight(r: Request, e: Evidence, b: Preview, p: Policy, at: Instant, authenticated: bool, ttl: int, t: Instant)
    requires ValidEvidence(e) && ValidPreview(b)
    requires Decide(r, e, b, p, at, authenticated).outcome != Unavailable
    requires at <= t && Ceiling(r, e, b, p, at, ttl, true) < t && WithinOwnWindow(r, at, ttl, t)
    ensures Decide(r, e, b, p, t, authenticated).outcome == Unavailable
  {
    OutcomeMeaning(r, e, b, p, at, authenticated);
    OutcomeMeaning(r, e, b, p, t, authenticated);
    CeilingMeaning(r, e, b, p, at, ttl, true, t - 1);
    ReadyOverTime(r, e, b, p, at, authenticated, t);
  }

  /** A usable section whose age is exactly the greatest age its policy allows. */
  predicate AsOldAsAllowed(x: Product, e: Evidence, p: Policy, at: Instant) {
    e.Of(x).asOf.Some? && at == e.Of(x).asOf.value + p.maxAgeSeconds.Of(x) * SECOND
  }

  predicate SomeAtAgeLimit(e: Evidence, p: Policy, at: Instant) {
    exists x :: x in p.requiredProducts && AsOldAsAllowed(x, e, p, at)
  }

  lemma FitSpansUnlessAtAgeLimit(x: Product, r: Request, e: Evidence, p: Policy, at: Instant)
    requires ValidEvidence(e)
    requires ValidSection(x, e.Of(x)) ==> Fit(x, e.Of(x), p.maxAgeSeconds.Of(x), r.mode, at)
    ensures ValidSection(x, e.Of(x))
    ensures Spans(x, e.Of(x), p.maxAgeSeconds.Of(x), at) <==> !AsOldAsAllowed(x, e, p, at)
  {
  }

  /** There is no positive safe window exactly when some required product is as old as it may be. */
  lemma NoWindowExactlyAtAgeLimit(r: Request, e: Evidence, b: Preview, p: Policy, at: Instant, authenticated: bool, ttl: int)
    requires ValidEvidence(e) && ValidPreview(b)
    requires Decide(r, e, b, p, at, authenticated).outcome != Unavailable
    requires at < r.expiresAt && ttl > 0
    ensures Ceiling(r, e, b, p, at, ttl, true) <= at
            <==> SomeAtAgeLimit(e, p, at)
  {
    assert Ready(r, e, b, p, at, authenticated) by {
      OutcomeMeaning(r, e, b, p, at, authenticated);
    }
    CeilingMeaning(r, e, b, p, at, ttl, true, at);
    forall x | x in p.requiredProducts
      ensures ValidSection(x, e.Of(x))
      ensures Spans(x, e.Of(x), p.maxAgeSeconds.Of(x), at) <==> !AsOldAsAllowed(x, e, p, at)
    {
      FitSpansUnlessAtAgeLimit(x, r, e, p, at);
    }
  }
}
