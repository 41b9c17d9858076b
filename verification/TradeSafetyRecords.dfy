/** Which requests, evidence sections and previews pass validation, field by field. */
module TradeSafetyRecords {
  import opened Basics
  import opened TradeSafety

  lemma RequestAcceptedExactlyWhen(r: Request)
    ensures ValidRequest(r) <==>
              && r.createdAt < r.expiresAt && r.order.notional > 0.0
              && (forall i, j :: 0 <= i < j < |r.agent.scope| ==> r.agent.scope[i] != r.agent.scope[j])
              && (r.mode == Paper ==> "orders:paper" in r.agent.scope) && (r.mode == Live ==> "orders:live" in r.agent.scope)
              && (r.order.quantity.Some? ==> r.order.quantity.value > 0.0)
              && (match r.order.orderType
                  case LimitOrder => r.order.limitPrice.Some? && r.order.stopPrice == None
                  case StopOrder => r.order.limitPrice == None && r.order.stopPrice.Some?
                  case StopLimit => r.order.limitPrice.Some? && r.order.stopPrice.Some?
                  case _ => r.order.limitPrice == None && r.order.stopPrice == None)
              && (r.order.limitPrice.Some? ==> r.order.limitPrice.value > 0.0)
              && (r.order.stopPrice.Some? ==> r.order.stopPrice.value > 0.0)
  {
  }

  /** The clocks a section states, in order: of the observation, known, retrieved, and before it expires. */
  predicate ClocksInOrder(s: Section) {
    && (s.asOf.Some? && s.knowledgeTime.Some? ==> s.asOf.value <= s.knowledgeTime.value)
    && (s.knowledgeTime.Some? ==> s.knowledgeTime.value <= s.retrievedAt)
    && (s.expiresAt.Some? ==> s.retrievedAt < s.expiresAt.value)
  }

  /** What each state says of the source and of the other fields. */
  predicate FitsItsState(s: Section) {
    match s.state
    case NotApplicable =>
      && s.sourceSha == None && s.asOf == None && s.knowledgeTime == None && s.expiresAt == None
      && s.facts == Facts(None, Absent, Absent, Absent, Absent, {}) && !s.realMoneyEligible && !s.executableQuote
    case Missing => !s.realMoneyEligible && !s.executableQuote
    case ContextOnly =>
      s.sourceSha.Some? && s.asOf.Some? && s.knowledgeTime.Some? && s.expiresAt.Some? && !s.realMoneyEligible && !s.executableQuote
    case Eligible =>
      && s.sourceSha.Some? && s.asOf.Some? && s.knowledgeTime.Some? && s.expiresAt.Some?
      && s.rights !in {Restricted, UnknownRights, Blocked} && (s.realMoneyEligible ==> s.rights in {Licensed, Allowed})
      && (s.executableQuote ==> s.realMoneyEligible)
  }

  predicate NumberFrom(f: Fact, usable: bool, zero: bool) {
    match f
    case Absent => !usable
    case Null => true
    case Num(x) => x > 0.0 || (zero && x == 0.0)
  }

  /** A usable regime, and usable sizes and costs: present, sizes above zero, costs not below it. */
  predicate StatesItsFacts(p: Product, s: Section) {
    var usable := s.state == Eligible || s.state == ContextOnly;
    match p
    case Seiche => usable ==> s.facts.regime.Some?
    case Undertow =>
      && NumberFrom(s.facts.requestedSize, usable, false) && NumberFrom(s.facts.publishedRung, usable, false)
      && NumberFrom(s.facts.worstSellCost, usable, true) && NumberFrom(s.facts.venueSpread, usable, true)
    case LiquiLens => true
  }

  lemma NoFactsMeans(f: Facts)
    ensures NoFacts(f) <==> f == Facts(None, Absent, Absent, Absent, Absent, {})
  {
  }

  lemma FactsExactlyWhen(p: Product, s: Section)
    ensures StatesItsFacts(p, s) <==>
              && (p == Seiche && Usable(s.state) ==> s.facts.regime.Some?)
              && (p == Undertow ==>
                    && Positive(s.facts.requestedSize) && Positive(s.facts.publishedRung)
                    && Nonnegative(s.facts.worstSellCost) && Nonnegative(s.facts.venueSpread)
                    && (Usable(s.state) ==>
                          && !s.facts.requestedSize.Absent? && !s.facts.publishedRung.Absent?
                          && !s.facts.worstSellCost.Absent? && !s.facts.venueSpread.Absent?))
  {
  }

  lemma SectionAcceptedExactlyWhen(p: Product, s: Section)
    ensures ValidSection(p, s)
            <==> ClocksInOrder(s) && FitsItsState(s) && StatesItsFacts(p, s) && (s.executableQuote ==> p == Undertow)
  {
    FactsExactlyWhen(p, s);
    NoFactsMeans(s.facts);
  }

  lemma PreviewAcceptedExactlyWhen(b: Preview)
    ensures ValidPreview(b) <==>
              match b.state
              case Verified => b.previewId.Some? && b.expiresAt.Some? && b.retrievedAt < b.expiresAt.value
              case PreviewNotApplicable => b.previewId == None && b.expiresAt == None
              case NoPreview => b.expiresAt.Some? ==> b.retrievedAt < b.expiresAt.value
  {
  }
}
