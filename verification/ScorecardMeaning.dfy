/** The numbers of the scorecard, each as the size of a set of events or installations written out in full. */
module ScorecardMeaning {
  import opened Basics
  import opened Scorecard

  lemma {:induction false} CoveredCountMeans(records: seq<Record>, b: Bounds)
    ensures CoveredCount(records, b)
            == |set i | 0 <= i < |records| && b.coverageStart <= records[i].seen < b.end|
    decreases |records|
  {
    if records != [] {
      var n := |records| - 1;
      CoveredCountMeans(records[..n], b);
      var before := set i | 0 <= i < |records[..n]| && b.coverageStart <= records[..n][i].seen < b.end;
      var all := set i | 0 <= i < |records| && b.coverageStart <= records[i].seen < b.end;
      if b.coverageStart <= records[n].seen < b.end {
        assert all == before + {n};
      } else {
        assert all == before;
      }
    }
  }

  // ----- the counts -----

  predicate InReport(r: Record, b: Bounds) {
    b.start <= r.seen < b.end
  }

  /** A counter's entry for a key, and zero for a key that was not counted. */
  function At<K>(m: map<K, nat>, k: K): nat {
    if k in m then m[k] else 0
  }

  lemma TallyMeans<K(!new)>(events: set<Record>, key: Record -> Option<K>, k: K)
    ensures At(Tally(events, key), k) == |Bearers(events, key, k)|
    ensures k in Tally(events, key) ==> Tally(events, key)[k] > 0
  {
    var bearers := Bearers(events, key, k);
    assert forall r :: r in bearers ==> k in KeysOf(events, key);
    if k in KeysOf(events, key) {
      var r :| r in events && key(r).Some? && key(r).value == k;
      assert r in bearers;
    } else {
      assert bearers == {};
    }
  }

  function CountedAs(events: set<Record>, b: Bounds, v: Verdict): set<Record> {
    set r | r in events && InReport(r, b) && r.traffic == Unattributed && r.event == "assessment_outcome" && r.verdict == v
  }

  lemma AssessmentsMean(report: Report, events: set<Record>, b: Bounds, v: Verdict)
    requires IsReport(report, events, b)
    ensures At(report.assessments, v) == |CountedAs(events, b, v)|
    ensures v in report.assessments ==> report.assessments[v] > 0
  {
    TallyMeans(events, r => AssessmentKey(r, b), v);
    assert Bearers(events, r => AssessmentKey(r, b), v) == CountedAs(events, b, v);
  }

  lemma DisjointSizes<T>(a: set<T>, b: set<T>, c: set<T>)
    requires a !! b && a !! c && b !! c
    ensures |a + b + c| == |a| + |b| + |c|
  {
  }

  lemma ThreeVerdicts(events: set<Record>, b: Bounds)
    ensures |CountedAs(events, b, PassVerdict)| + |CountedAs(events, b, LimitVerdict)| + |CountedAs(events, b, HoldVerdict)|
            == |set r | r in events && InReport(r, b) && r.traffic == Unattributed
                        && r.event == "assessment_outcome" && r.verdict in {PassVerdict, LimitVerdict, HoldVerdict}|
  {
    var p, l, h := CountedAs(events, b, PassVerdict), CountedAs(events, b, LimitVerdict), CountedAs(events, b, HoldVerdict);
    DisjointSizes(p, l, h);
    assert p + l + h == set r | r in events && InReport(r, b) && r.traffic == Unattributed
                                && r.event == "assessment_outcome" && r.verdict in {PassVerdict, LimitVerdict, HoldVerdict};
  }

  lemma UsefulMeans(report: Report, events: set<Record>, b: Bounds)
    requires IsReport(report, events, b)
    ensures report.useful == |set r | r in events && InReport(r, b) && r.traffic == Unattributed
                                      && r.event == "assessment_outcome" && r.verdict in {PassVerdict, LimitVerdict, HoldVerdict}|
  {
    AssessmentsMean(report, events, b, PassVerdict);
    AssessmentsMean(report, events, b, LimitVerdict);
    AssessmentsMean(report, events, b, HoldVerdict);
    ThreeVerdicts(events, b);
  }

  lemma OperationsMean(report: Report, events: set<Record>, b: Bounds, event: string)
    requires IsReport(report, events, b)
    ensures At(report.operations, event) == |set r | r in events && InReport(r, b) && r.traffic == Unattributed && r.event == event|
    ensures event in report.operations ==> report.operations[event] > 0
  {
    TallyMeans(events, r => OperationKey(r, b), event);
    assert Bearers(events, r => OperationKey(r, b), event)
        == set r | r in events && InReport(r, b) && r.traffic == Unattributed && r.event == event;
  }

  lemma ExcludedMean(report: Report, events: set<Record>, b: Bounds, traffic: Traffic)
    requires IsReport(report, events, b)
    ensures At(report.excluded, traffic)
            == if traffic == Unattributed then 0 else |set r | r in events && InReport(r, b) && r.traffic == traffic|
    ensures traffic in report.excluded ==> report.excluded[traffic] > 0
  {
    TallyMeans(events, r => ExcludedKey(r, b), traffic);
    if traffic == Unattributed {
      assert Bearers(events, r => ExcludedKey(r, b), traffic) == {};
    } else {
      assert Bearers(events, r => ExcludedKey(r, b), traffic)
          == set r | r in events && InReport(r, b) && r.traffic == traffic;
    }
  }

  // ----- installations -----

  /** An assessment of unattributed traffic that was not answered "unavailable". */
  predicate Useful(r: Record) {
    r.traffic == Unattributed && r.event == "assessment_outcome" && r.verdict != UnavailableVerdict
  }

  lemma AnonymousEvents(events: set<Record>, b: Bounds)
    ensures (set r | r in events && IsAnonymous(r, b))
            == set r | r in events && Useful(r) && r.installation == None && InReport(r, b)
  {
  }

  lemma ActiveInstallations(events: set<Record>, b: Bounds)
    ensures Installations(set r | r in events && InWindow(r, b))
            == set r | r in events && Useful(r) && r.installation.Some? && InReport(r, b) :: r.installation.value
  {
  }

  lemma InstallationsMean(report: Report, events: set<Record>, b: Bounds)
    requires IsReport(report, events, b)
    ensures report.anonymous == |set r | r in events && Useful(r) && r.installation == None && InReport(r, b)|
    ensures report.active == |set r | r in events && Useful(r) && r.installation.Some? && InReport(r, b) :: r.installation.value|
  {
    AnonymousEvents(events, b);
    ActiveInstallations(events, b);
  }

  /** A first useful assessment: none of the installation's others fell on an earlier calendar day. */
  predicate FirstUse(events: set<Record>, who: string, r: Record) {
    && r in events && Useful(r) && r.installation == Some(who)
    && forall s :: s in events && Useful(s) && s.installation == Some(who) ==> r.seen / 86_400 <= s.seen / 86_400
  }

  /** Its day began inside the report, and the whole day so many days later lies inside it. */
  predicate InCohort(r: Record, offset: int, b: Bounds) {
    b.start <= r.seen / 86_400 * 86_400 < b.end && (r.seen / 86_400 + offset + 1) * 86_400 <= b.end
  }

  ghost predicate Joined(events: set<Record>, who: string, offset: int, b: Bounds) {
    exists r :: FirstUse(events, who, r) && InCohort(r, offset, b)
  }

  predicate UsedOn(events: set<Record>, who: string, day: int) {
    exists s :: s in events && Useful(s) && s.installation == Some(who) && s.seen / 86_400 == day
  }

  ghost predicate Returned(events: set<Record>, who: string, offset: int, b: Bounds) {
    exists r :: FirstUse(events, who, r) && InCohort(r, offset, b) && UsedOn(events, who, r.seen / 86_400 + offset)
  }

  function Users(events: set<Record>): set<string> {
    set r | r in events && Useful(r) && r.installation.Some? :: r.installation.value
  }

  lemma DaysMean(events: set<Record>, who: string)
    ensures who in Days(events) <==> who in Users(events)
    ensures who in Days(events) ==> forall d :: d in Days(events)[who] <==> UsedOn(events, who, d)
  {
    assert Users(events) == Installations(events);
    if who in Days(events) {
      forall d ensures d in DaysOf(events, who) <==> UsedOn(events, who, d) {
        if s :| s in events && Useful(s) && s.installation == Some(who) && s.seen / 86_400 == d {
          assert Answered(s) && DayOf(s) == d;
        }
      }
    }
  }

  lemma FirstUseIsFirstDay(events: set<Record>, who: string, r: Record)
    requires who in Days(events) && r in events && Useful(r) && r.installation == Some(who)
    ensures FirstUse(events, who, r) <==> IsFirst(Days(events)[who], r.seen / 86_400)
  {
    DaysMean(events, who);
    if IsFirst(Days(events)[who], r.seen / 86_400) {
      forall s | s in events && Useful(s) && s.installation == Some(who) ensures r.seen / 86_400 <= s.seen / 86_400 {
        assert UsedOn(events, who, s.seen / 86_400);
      }
    }
  }

  lemma FirstDayMeans(events: set<Record>, who: string, first: int)
    requires who in Days(events)
    ensures IsFirst(Days(events)[who], first) <==> exists r :: FirstUse(events, who, r) && r.seen / 86_400 == first
  {
    DaysMean(events, who);
    if IsFirst(Days(events)[who], first) {
      assert UsedOn(events, who, first);
      var r :| r in events && Useful(r) && r.installation == Some(who) && r.seen / 86_400 == first;
      FirstUseIsFirstDay(events, who, r);
    }
    if r :| FirstUse(events, who, r) && r.seen / 86_400 == first {
      FirstUseIsFirstDay(events, who, r);
    }
  }

  lemma JoinedMeans(events: set<Record>, who: string, offset: int, b: Bounds)
    requires who in Days(events)
    ensures Eligible(Days(events)[who], offset, b) <==> Joined(events, who, offset, b)
  {
    if Eligible(Days(events)[who], offset, b) {
      var first :| IsFirst(Days(events)[who], first) && Countable(first, offset, b);
      FirstDayMeans(events, who, first);
    }
    if r :| FirstUse(events, who, r) && InCohort(r, offset, b) {
      FirstDayMeans(events, who, r.seen / 86_400);
    }
  }

  lemma ReturnedMeans(events: set<Record>, who: string, offset: int, b: Bounds)
    requires who in Days(events)
    ensures CameBack(Days(events)[who], offset, b) <==> Returned(events, who, offset, b)
  {
    DaysMean(events, who);
    if CameBack(Days(events)[who], offset, b) {
      var first :| IsFirst(Days(events)[who], first) && Countable(first, offset, b) && first + offset in Days(events)[who];
      FirstDayMeans(events, who, first);
    }
    if r :| FirstUse(events, who, r) && InCohort(r, offset, b) && UsedOn(events, who, r.seen / 86_400 + offset) {
      FirstDayMeans(events, who, r.seen / 86_400);
    }
  }

  lemma UsersMean(events: set<Record>)
    ensures Users(events) == Days(events).Keys
  {
    assert Users(events) == Installations(events);
  }

  lemma JoinedCohort(events: set<Record>, offset: int, b: Bounds)
    ensures (set who | who in Days(events) && Eligible(Days(events)[who], offset, b))
            == set who | who in Users(events) && Joined(events, who, offset, b)
  {
    UsersMean(events);
    forall who | who in Days(events) ensures Eligible(Days(events)[who], offset, b) <==> Joined(events, who, offset, b) {
      JoinedMeans(events, who, offset, b);
    }
  }

  lemma ReturnedCohort(events: set<Record>, offset: int, b: Bounds)
    ensures (set who | who in Days(events) && CameBack(Days(events)[who], offset, b))
            == set who | who in Users(events) && Returned(events, who, offset, b)
  {
    UsersMean(events);
    forall who | who in Days(events) ensures CameBack(Days(events)[who], offset, b) <==> Returned(events, who, offset, b) {
      ReturnedMeans(events, who, offset, b);
    }
  }

  lemma RetentionMeans(events: set<Record>, offset: int, b: Bounds)
    ensures RetentionOf(Days(events), offset, b)
            == Retention(|set who | who in Users(events) && Joined(events, who, offset, b)|,
                         |set who | who in Users(events) && Returned(events, who, offset, b)|)
  {
    JoinedCohort(events, offset, b);
    ReturnedCohort(events, offset, b);
  }

  /** A cohort has joined by a first use whose return day is over; those who used it again on that day have returned. */
  lemma CohortsMean(report: Report, events: set<Record>, b: Bounds)
    requires IsReport(report, events, b)
    ensures report.d1 == Retention(|set who | who in Users(events) && Joined(events, who, 1, b)|,
                                   |set who | who in Users(events) && Returned(events, who, 1, b)|)
    ensures report.d7 == Retention(|set who | who in Users(events) && Joined(events, who, 7, b)|,
                                   |set who | who in Users(events) && Returned(events, who, 7, b)|)
  {
    RetentionMeans(events, 1, b);
    RetentionMeans(events, 7, b);
  }

  // ----- the answer -----

  /** Which logs are refused, in which order, and how repeats and epochs are reported for the others. */
  lemma AnswerExactlyWhen(answer: Result<Report, Refusal>, records: seq<Record>, b: Bounds)
    requires IsAnswer(answer, Events(records, b), CoveredCount(records, b), b)
    ensures var events := set r | r in records && b.coverageStart <= r.seen < b.end;
            var sound := b.coverageStart <= b.start < b.end;
            var conflict := exists r, s :: r in events && s in events && r.eventId == s.eventId && r != s;
            var rotation := exists r, s :: r in events && s in events && r.epoch != s.epoch;
            && (answer == Err(InvalidInterval) <==> !sound)
            && (answer == Err(ConflictingDuplicate) <==> sound && conflict)
            && (answer == Err(IdentityRotation) <==> sound && !conflict && rotation)
            && (answer.Ok? <==> sound && !conflict && !rotation)
            && (answer.Ok? ==>
                  && IsReport(answer.value, events, b)
                  && answer.value.duplicates
                     == |set i | 0 <= i < |records| && b.coverageStart <= records[i].seen < b.end| - |events|
                  && (answer.value.epoch == None <==> events == {})
                  && (forall r :: r in events ==> answer.value.epoch == Some(r.epoch)))
  {
    CoveredCountMeans(records, b);
    assert Events(records, b) == set r | r in records && b.coverageStart <= r.seen < b.end;
    if answer.Ok? {
      EpochMeans(answer.value, Events(records, b), b);
    }
  }

  lemma EpochMeans(report: Report, events: set<Record>, b: Bounds)
    requires IsReport(report, events, b)
    ensures report.epoch == None <==> events == {}
    ensures forall r :: r in events ==> report.epoch == Some(r.epoch)
  {
    forall r | r in events ensures report.epoch == Some(r.epoch) {
      assert r.epoch in EpochOf(events);
    }
  }
}
