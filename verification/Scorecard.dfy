/** The traction scorecard: a fold over a log that has to depend only on the set of events in it. */
module Scorecard {
  import opened Basics

  datatype Traffic = Unattributed | Synthetic | Automation

  datatype Verdict = PassVerdict | LimitVerdict | HoldVerdict | UnavailableVerdict

  /** One validated telemetry record; times are whole seconds. */
  datatype Record = Record(eventId: string, seen: int, traffic: Traffic, event: string, verdict: Verdict,
                           installation: Option<string>, epoch: string, details: string)

  const ASSESSMENT := "assessment_outcome"
  const DAY := 86_400

  datatype Bounds = Bounds(start: int, end: int, coverageStart: int) {
    predicate Valid() {
      coverageStart <= start < end
    }
  }

  datatype Retention = Retention(eligible: nat, returned: nat)

  /** Counters hold only the keys that were counted. */
  datatype Report = Report(
    epoch: Option<string>, assessments: map<Verdict, nat>, useful: nat, anonymous: nat, active: nat,
    d1: Retention, d7: Retention, operations: map<string, nat>, excluded: map<Traffic, nat>, duplicates: nat)

  datatype Refusal = InvalidInterval | ConflictingDuplicate | IdentityRotation

  predicate Covered(r: Record, b: Bounds) {
    b.coverageStart <= r.seen < b.end
  }

  predicate InWindow(r: Record, b: Bounds) {
    b.start <= r.seen < b.end
  }

  // ----- what a record counts towards -----

  function ExcludedKey(r: Record, b: Bounds): Option<Traffic> {
    if r.traffic != Unattributed && InWindow(r, b) then Some(r.traffic) else None
  }

  function OperationKey(r: Record, b: Bounds): Option<string> {
    if r.traffic == Unattributed && InWindow(r, b) then Some(r.event) else None
  }

  function AssessmentKey(r: Record, b: Bounds): Option<Verdict> {
    if r.traffic == Unattributed && InWindow(r, b) && r.event == ASSESSMENT then Some(r.verdict) else None
  }

  /** A usable assessment: unattributed traffic that got an answer. */
  predicate Answered(r: Record) {
    r.traffic == Unattributed && r.event == ASSESSMENT && r.verdict != UnavailableVerdict
  }

  predicate IsAnonymous(r: Record, b: Bounds) {
    Answered(r) && r.installation.None? && InWindow(r, b)
  }

  function DayOf(r: Record): int {
    r.seen / DAY
  }

  // ----- the report as a function of the set of events -----

  function Events(records: seq<Record>, b: Bounds): set<Record> {
    set r | r in records && Covered(r, b)
  }

  function Bearers<K(==)>(events: set<Record>, key: Record -> Option<K>, k: K): set<Record> {
    set r | r in events && key(r) == Some(k)
  }

  function KeysOf<K>(events: set<Record>, key: Record -> Option<K>): set<K> {
    set r | r in events && key(r).Some? :: key(r).value
  }

  /** How many records carry each key. */
  function Tally<K(==)>(events: set<Record>, key: Record -> Option<K>): map<K, nat> {
    map k | k in KeysOf(events, key) :: |Bearers(events, key, k)|
  }

  function Count(m: map<Verdict, nat>, v: Verdict): nat {
    if v in m then m[v] else 0
  }

  function Installations(events: set<Record>): set<string> {
    set r | r in events && Answered(r) && r.installation.Some? :: r.installation.value
  }

  function DaysOf(events: set<Record>, who: string): set<int> {
    set r | r in events && Answered(r) && r.installation == Some(who) :: DayOf(r)
  }

  function Days(events: set<Record>): map<string, set<int>> {
    map who | who in Installations(events) :: DaysOf(events, who)
  }

  predicate IsFirst(days: set<int>, first: int) {
    first in days && forall d :: d in days ==> first <= d
  }

  /** A first day that starts inside the window and whose return day ends inside it. */
  predicate Countable(first: int, offset: int, b: Bounds) {
    b.start <= first * DAY < b.end && (first + offset + 1) * DAY <= b.end
  }

  ghost predicate Eligible(days: set<int>, offset: int, b: Bounds) {
    exists first :: IsFirst(days, first) && Countable(first, offset, b)
  }

  ghost predicate CameBack(days: set<int>, offset: int, b: Bounds) {
    exists first :: IsFirst(days, first) && Countable(first, offset, b) && first + offset in days
  }

  ghost function RetentionOf(days: map<string, set<int>>, offset: int, b: Bounds): Retention {
    Retention(|set who | who in days && Eligible(days[who], offset, b)|,
              |set who | who in days && CameBack(days[who], offset, b)|)
  }

  predicate Conflicting(events: set<Record>) {
    exists r, s :: r in events && s in events && r.eventId == s.eventId && r != s
  }

  predicate Rotated(events: set<Record>) {
    exists r, s :: r in events && s in events && r.epoch != s.epoch
  }

  function EpochOf(events: set<Record>): set<string> {
    set r | r in events :: r.epoch
  }

  ghost predicate IsReport(report: Report, events: set<Record>, b: Bounds) {
    && (report.epoch.None? <==> events == {})
    && (report.epoch.Some? ==> EpochOf(events) == {report.epoch.value})
    && report.assessments == Tally(events, r => AssessmentKey(r, b))
    && report.useful == Count(report.assessments, PassVerdict) + Count(report.assessments, LimitVerdict)
                        + Count(report.assessments, HoldVerdict)
    && report.anonymous == |set r | r in events && IsAnonymous(r, b)|
    && report.active == |Installations(set r | r in events && InWindow(r, b))|
    && report.d1 == RetentionOf(Days(events), 1, b) && report.d7 == RetentionOf(Days(events), 7, b)
    && report.operations == Tally(events, r => OperationKey(r, b))
    && report.excluded == Tally(events, r => ExcludedKey(r, b))
  }

  function CoveredCount(records: seq<Record>, b: Bounds): nat {
    if records == [] then 0
    else CoveredCount(records[..|records| - 1], b) + (if Covered(records[|records| - 1], b) then 1 else 0)
  }

  /** The answer to a log: a refusal or a report, and how many records repeat an earlier one. */
  ghost predicate IsAnswer(answer: Result<Report, Refusal>, events: set<Record>, covered: nat, b: Bounds) {
    if !b.Valid() then answer == Err(InvalidInterval)
    else if Conflicting(events) then answer == Err(ConflictingDuplicate)
    else if Rotated(events) then answer == Err(IdentityRotation)
    else answer.Ok? && IsReport(answer.value, events, b) && answer.value.duplicates + |events| == covered
  }

  // ----- collecting unique events -----

  predicate DistinctRecords(xs: seq<Record>) {
    forall i, j :: 0 <= i < j < |xs| ==> xs[i] != xs[j]
  }

  function Elements(xs: seq<Record>): set<Record> {
    set r | r in xs
  }

  lemma {:induction false} DistinctSize(xs: seq<Record>)
    requires DistinctRecords(xs)
    ensures |Elements(xs)| == |xs|
    decreases |xs|
  {
    if xs != [] {
      var n := |xs| - 1;
      DistinctSize(xs[..n]);
      assert xs == xs[..n] + [xs[n]];
      assert Elements(xs) == Elements(xs[..n]) + {xs[n]};
    }
  }

  lemma EventsAppend(records: seq<Record>, r: Record, b: Bounds)
    ensures Events(records + [r], b) == Events(records, b) + (if Covered(r, b) then {r} else {})
    ensures CoveredCount(records + [r], b) == CoveredCount(records, b) + (if Covered(r, b) then 1 else 0)
  {
    assert (records + [r])[..|records|] == records;
  }

  /** The dictionary holds exactly the unique records, under their ids. */
  ghost predicate Indexed(unique: seq<Record>, byId: map<string, Record>) {
    && (forall r :: r in unique ==> r.eventId in byId && byId[r.eventId] == r)
    && (forall id :: id in byId ==> byId[id] in unique && byId[id].eventId == id)
  }

  lemma IndexGrows(unique: seq<Record>, byId: map<string, Record>, record: Record)
    requires Indexed(unique, byId) && DistinctRecords(unique) && record.eventId !in byId
    ensures Indexed(unique + [record], byId[record.eventId := record]) && DistinctRecords(unique + [record])
    ensures record !in unique && Elements(unique + [record]) == Elements(unique) + {record}
  {
    assert forall i :: 0 <= i < |unique| ==> unique[i] in unique;
  }

  /** First pass: one record per event id, in order of first appearance; a different one under the same id refuses. */
  method CollectUnique(records: seq<Record>, b: Bounds)
    returns (unique: seq<Record>, duplicates: nat, epochs: set<string>, conflict: bool)
    ensures conflict <==> Conflicting(Events(records, b))
    ensures !conflict ==> DistinctRecords(unique) && Elements(unique) == Events(records, b)
                          && duplicates + |unique| == CoveredCount(records, b) && epochs == EpochOf(Events(records, b))
  {
    unique, duplicates, epochs, conflict := [], 0, {}, false;
    var byId: map<string, Record> := map[];
    var i := 0;
    while i < |records|
      invariant 0 <= i <= |records|
      invariant DistinctRecords(unique) && Elements(unique) == Events(records[..i], b)
      invariant duplicates + |unique| == CoveredCount(records[..i], b) && epochs == EpochOf(Events(records[..i], b))
      invariant Indexed(unique, byId)
    {
      var record := records[i];
      assert records[..i + 1] == records[..i] + [record];
      EventsAppend(records[..i], record, b);
      i := i + 1;
      if record.seen < b.coverageStart || record.seen >= b.end {
        continue;
      }
      if record.eventId in byId {
        if byId[record.eventId] != record {
          ConflictStays(records, i, b, byId[record.eventId], record);
          return [], 0, {}, true;
        }
        duplicates := duplicates + 1;
        assert Events(records[..i - 1], b) + {record} == Events(records[..i - 1], b);
        continue;
      }
      IndexGrows(unique, byId, record);
      byId := byId[record.eventId := record];
      unique := unique + [record];
      epochs := epochs + {record.epoch};
    }
    assert records[..i] == records;
    NoConflictInUnique(unique, byId, Events(records, b));
  }

  lemma ConflictStays(records: seq<Record>, i: nat, b: Bounds, r: Record, s: Record)
    requires i <= |records| && r in Events(records[..i], b) && s in Events(records[..i], b) && r.eventId == s.eventId && r != s
    ensures Conflicting(Events(records, b))
  {
    assert r in Events(records, b) && s in Events(records, b);
  }

  lemma NoConflictInUnique(unique: seq<Record>, byId: map<string, Record>, events: set<Record>)
    requires Elements(unique) == events && Indexed(unique, byId)
    ensures !Conflicting(events)
  {
    forall r, s | r in events && s in events && r.eventId == s.eventId ensures r == s {
      assert r in unique && s in unique;
    }
  }

  // ----- counting -----

  function Bump<K>(m: map<K, nat>, k: K): map<K, nat> {
    m[k := (if k in m then m[k] else 0) + 1]
  }

  function BumpIf<K>(m: map<K, nat>, k: Option<K>): map<K, nat> {
    if k.Some? then Bump(m, k.value) else m
  }

  lemma BearersGrow<K(!new)>(events: set<Record>, r: Record, key: Record -> Option<K>, k: K)
    requires r !in events
    ensures |Bearers(events + {r}, key, k)| == |Bearers(events, key, k)| + (if key(r) == Some(k) then 1 else 0)
    ensures k !in KeysOf(events, key) ==> |Bearers(events, key, k)| == 0
  {
    assert Bearers(events + {r}, key, k) == Bearers(events, key, k) + (if key(r) == Some(k) then {r} else {});
    if k !in KeysOf(events, key) {
      assert Bearers(events, key, k) == {};
    }
  }

  lemma KeysGrow<K(!new)>(events: set<Record>, r: Record, key: Record -> Option<K>)
    ensures KeysOf(events + {r}, key) == KeysOf(events, key) + (if key(r).Some? then {key(r).value} else {})
  {
  }

  /** Counting a new event changes a tally by one, under its key. */
  lemma TallyGrows<K(!new)>(events: set<Record>, r: Record, key: Record -> Option<K>)
    requires r !in events
    ensures Tally(events + {r}, key) == BumpIf(Tally(events, key), key(r))
  {
    KeysGrow(events, r, key);
    var after, bumped := Tally(events + {r}, key), BumpIf(Tally(events, key), key(r));
    assert after.Keys == bumped.Keys;
    forall k | k in after ensures after[k] == bumped[k] {
      BearersGrow(events, r, key, k);
    }
  }

  lemma DaysOfGrow(events: set<Record>, r: Record, who: string)
    ensures DaysOf(events + {r}, who)
            == DaysOf(events, who) + (if Answered(r) && r.installation == Some(who) then {DayOf(r)} else {})
    ensures who !in Installations(events) ==> DaysOf(events, who) == {}
  {
  }

  lemma InstallationsGrow(events: set<Record>, r: Record)
    ensures Installations(events + {r})
            == Installations(events) + (if Answered(r) && r.installation.Some? then {r.installation.value} else {})
  {
  }

  function DayAdded(days: map<string, set<int>>, r: Record): map<string, set<int>> {
    if Answered(r) && r.installation.Some? then
      var who := r.installation.value;
      days[who := (if who in days then days[who] else {}) + {DayOf(r)}]
    else days
  }

  lemma DaysGrow(events: set<Record>, r: Record)
    ensures Days(events + {r}) == DayAdded(Days(events), r)
  {
    InstallationsGrow(events, r);
    var after, added := Days(events + {r}), DayAdded(Days(events), r);
    assert after.Keys == added.Keys;
    forall who | who in after ensures after[who] == added[who] {
      DaysOfGrow(events, r, who);
    }
  }

  datatype Counters = Counters(assessments: map<Verdict, nat>, excluded: map<Traffic, nat>, operations: map<string, nat>,
                               days: map<string, set<int>>, active: set<string>, anonymous: nat)

  ghost predicate Counted(c: Counters, events: set<Record>, b: Bounds) {
    && c.assessments == Tally(events, r => AssessmentKey(r, b))
    && c.excluded == Tally(events, r => ExcludedKey(r, b))
    && c.operations == Tally(events, r => OperationKey(r, b))
    && c.days == Days(events)
    && c.active == Installations(set r | r in events && InWindow(r, b))
    && c.anonymous == |set r | r in events && IsAnonymous(r, b)|
  }

  /** The end of that body: an assessment that was answered is counted for its installation, or as anonymous. */
  method CountAnswer(c: Counters, record: Record, b: Bounds) returns (d: Counters)
    requires Answered(record)
    ensures d.assessments == c.assessments && d.excluded == c.excluded && d.operations == c.operations
    ensures d.days == DayAdded(c.days, record)
    ensures d.active == c.active + (if record.installation.Some? && InWindow(record, b) then {record.installation.value} else {})
    ensures d.anonymous == c.anonymous + (if IsAnonymous(record, b) then 1 else 0)
  {
    d := c;
    var inWindow := b.start <= record.seen < b.end;
    if record.installation.None? {
      d := d.(anonymous := d.anonymous + (if inWindow then 1 else 0));
      return;
    }
    var who := record.installation.value;
    d := d.(days := d.days[who := (if who in d.days then d.days[who] else {}) + {record.seen / DAY}]);
    if inWindow {
      d := d.(active := d.active + {who});
    }
  }

  /** The body of the counting loop, with its early exits. */
  method CountOne(c: Counters, record: Record, b: Bounds) returns (d: Counters)
    ensures d.assessments == BumpIf(c.assessments, AssessmentKey(record, b))
    ensures d.excluded == BumpIf(c.excluded, ExcludedKey(record, b))
    ensures d.operations == BumpIf(c.operations, OperationKey(record, b))
    ensures d.days == DayAdded(c.days, record)
    ensures d.active == c.active + (if Answered(record) && record.installation.Some? && InWindow(record, b)
                                    then {record.installation.value} else {})
    ensures d.anonymous == c.anonymous + (if IsAnonymous(record, b) then 1 else 0)
  {
    d := c;
    var inWindow := b.start <= record.seen < b.end;
    if record.traffic != Unattributed {
      if inWindow {
        d := d.(excluded := Bump(d.excluded, record.traffic));
      }
      return;
    }
    if inWindow {
      d := d.(operations := Bump(d.operations, record.event));
    }
    if record.event != ASSESSMENT {
      return;
    }
    if inWindow {
      d := d.(assessments := Bump(d.assessments, record.verdict));
    }
    if record.verdict != UnavailableVerdict {
      d := CountAnswer(d, record, b);
    }
  }

  lemma CountingOneMore(c: Counters, d: Counters, events: set<Record>, r: Record, b: Bounds)
    requires Counted(c, events, b) && r !in events
    requires d.assessments == BumpIf(c.assessments, AssessmentKey(r, b))
    requires d.excluded == BumpIf(c.excluded, ExcludedKey(r, b))
    requires d.operations == BumpIf(c.operations, OperationKey(r, b))
    requires d.days == Days(events + {r})
    requires d.active == c.active + (if Answered(r) && r.installation.Some? && InWindow(r, b) then {r.installation.value} else {})
    requires d.anonymous == c.anonymous + (if IsAnonymous(r, b) then 1 else 0)
    ensures Counted(d, events + {r}, b)
  {
    assert d.assessments == Tally(events + {r}, x => AssessmentKey(x, b)) by {
      TallyGrows(events, r, x => AssessmentKey(x, b));
    }
    assert d.excluded == Tally(events + {r}, x => ExcludedKey(x, b)) by {
      TallyGrows(events, r, x => ExcludedKey(x, b));
    }
    assert d.operations == Tally(events + {r}, x => OperationKey(x, b)) by {
      TallyGrows(events, r, x => OperationKey(x, b));
    }
    AnonymousGrows(events, r, b);
    ActiveGrows(events, r, b);
  }

  lemma AnonymousGrows(events: set<Record>, r: Record, b: Bounds)
    requires r !in events
    ensures |set x | x in events + {r} && IsAnonymous(x, b)|
            == |set x | x in events && IsAnonymous(x, b)| + (if IsAnonymous(r, b) then 1 else 0)
  {
    assert (set x | x in events + {r} && IsAnonymous(x, b))
           == (set x | x in events && IsAnonymous(x, b)) + (if IsAnonymous(r, b) then {r} else {});
  }

  lemma ActiveGrows(events: set<Record>, r: Record, b: Bounds)
    ensures Installations(set x | x in events + {r} && InWindow(x, b))
            == Installations(set x | x in events && InWindow(x, b))
               + (if Answered(r) && r.installation.Some? && InWindow(r, b) then {r.installation.value} else {})
  {
    assert (set x | x in events + {r} && InWindow(x, b))
           == (set x | x in events && InWindow(x, b)) + (if InWindow(r, b) then {r} else {});
  }

  lemma NothingCounted(b: Bounds)
    ensures Counted(Counters(map[], map[], map[], map[], {}, 0), {}, b)
  {
  }

  lemma ElementsOfPrefix(unique: seq<Record>, i: nat)
    requires i < |unique| && DistinctRecords(unique)
    ensures unique[i] !in Elements(unique[..i]) && Elements(unique[..i + 1]) == Elements(unique[..i]) + {unique[i]}
  {
    assert unique[..i + 1] == unique[..i] + [unique[i]];
  }

  /** One more event counted. */
  method CountInto(c: Counters, ghost events: set<Record>, record: Record, b: Bounds) returns (d: Counters)
    requires Counted(c, events, b) && record !in events
    ensures Counted(d, events + {record}, b)
  {
    d := CountOne(c, record, b);
    DaysGrow(events, record);
    CountingOneMore(c, d, events, record, b);
  }

  method CountAll(unique: seq<Record>, b: Bounds) returns (c: Counters)
    requires DistinctRecords(unique)
    ensures Counted(c, Elements(unique), b)
  {
    c := Counters(map[], map[], map[], map[], {}, 0);
    var i := 0;
    NothingCounted(b);
    assert Elements(unique[..0]) == {};
    while i < |unique|
      invariant 0 <= i <= |unique|
      invariant Counted(c, Elements(unique[..i]), b)
    {
      ElementsOfPrefix(unique, i);
      c := CountInto(c, Elements(unique[..i]), unique[i], b);
      i := i + 1;
    }
    assert unique[..i] == unique;
  }

  // ----- retention -----

  lemma EmptyOrInhabited(s: set<int>)
    ensures s == {} || exists d :: d in s
  {
    if forall d :: d !in s {
      assert s == {};
    }
  }

  method FirstOf(days: set<int>) returns (first: int)
    requires days != {}
    ensures IsFirst(days, first)
  {
    var rest := days;
    var best: Option<int> := None;
    while rest != {}
      invariant rest <= days && (best.None? ==> rest == days)
      invariant best.Some? ==> best.value in days && forall d :: d in days && d !in rest ==> best.value <= d
      decreases |rest|
    {
      EmptyOrInhabited(rest);
      var d :| d in rest;
      rest := rest - {d};
      if best.None? || d < best.value {
        best := Some(d);
      }
    }
    return best.value;
  }

  lemma FirstDecides(days: set<int>, first: int, offset: int, b: Bounds)
    requires IsFirst(days, first)
    ensures Eligible(days, offset, b) <==> Countable(first, offset, b)
    ensures CameBack(days, offset, b) <==> Countable(first, offset, b) && first + offset in days
  {
  }

  ghost function CountIf(s: set<string>, p: string -> bool): nat {
    |set x | x in s && p(x)|
  }

  lemma CountIfGrows(s: set<string>, x: string, p: string -> bool)
    requires x !in s
    ensures CountIf(s + {x}, p) == CountIf(s, p) + (if p(x) then 1 else 0)
  {
    assert (set y | y in s + {x} && p(y)) == (set y | y in s && p(y)) + (if p(x) then {x} else {});
  }

  lemma RetentionCounts(days: map<string, set<int>>, offset: int, b: Bounds, eligible: string -> bool, returned: string -> bool)
    requires forall who :: who in days ==> (eligible(who) <==> Eligible(days[who], offset, b))
    requires forall who :: who in days ==> (returned(who) <==> CameBack(days[who], offset, b))
    ensures RetentionOf(days, offset, b) == Retention(CountIf(days.Keys, eligible), CountIf(days.Keys, returned))
  {
    assert (set who | who in days.Keys && eligible(who)) == (set who | who in days && Eligible(days[who], offset, b));
    assert (set who | who in days.Keys && returned(who)) == (set who | who in days && CameBack(days[who], offset, b));
  }

  method RetainOne(days: set<int>, offset: int, b: Bounds) returns (eligible: bool, returned: bool)
    requires days != {}
    ensures eligible <==> Eligible(days, offset, b)
    ensures returned <==> CameBack(days, offset, b)
  {
    var first := FirstOf(days);
    FirstDecides(days, first, offset, b);
    eligible := b.start <= first * DAY < b.end && (first + offset + 1) * DAY <= b.end;
    returned := eligible && first + offset in days;
  }

  method CountRetained(days: map<string, set<int>>, offset: int, b: Bounds, ghost isEligible: string -> bool,
                       ghost isReturned: string -> bool)
    returns (r: Retention)
    requires forall who :: who in days ==> days[who] != {}
    requires forall who :: who in days ==> (isEligible(who) <==> Eligible(days[who], offset, b))
    requires forall who :: who in days ==> (isReturned(who) <==> CameBack(days[who], offset, b))
    ensures r == Retention(CountIf(days.Keys, isEligible), CountIf(days.Keys, isReturned))
  {
    var eligible: nat, returned: nat := 0, 0;
    var rest := days.Keys;
    ghost var all := days.Keys;
    assert all - rest == {} && CountIf({}, isEligible) == 0 && CountIf({}, isReturned) == 0;
    while rest != {}
      invariant rest <= all
      invariant eligible == CountIf(all - rest, isEligible) && returned == CountIf(all - rest, isReturned)
      decreases |rest|
    {
      var who :| who in rest;
      CountIfGrows(all - rest, who, isEligible);
      CountIfGrows(all - rest, who, isReturned);
      assert all - rest + {who} == all - (rest - {who});
      rest := rest - {who};
      var yes, back := RetainOne(days[who], offset, b);
      eligible := eligible + (if yes then 1 else 0);
      returned := returned + (if back then 1 else 0);
    }
    assert all - {} == all;
    r := Retention(eligible, returned);
  }

  method Retain(days: map<string, set<int>>, offset: int, b: Bounds) returns (r: Retention)
    requires forall who :: who in days ==> days[who] != {}
    ensures r == RetentionOf(days, offset, b)
  {
    ghost var isEligible := who => who in days && Eligible(days[who], offset, b);
    ghost var isReturned := who => who in days && CameBack(days[who], offset, b);
    RetentionCounts(days, offset, b, isEligible, isReturned);
    r := CountRetained(days, offset, b, isEligible, isReturned);
  }

  // ----- the report -----

  lemma DaysAreNotEmpty(events: set<Record>)
    ensures forall who :: who in Days(events) ==> Days(events)[who] != {}
  {
    forall who | who in Days(events) ensures DaysOf(events, who) != {} {
      var r :| r in events && Answered(r) && r.installation == Some(who);
      assert DayOf(r) in DaysOf(events, who);
    }
  }

  lemma OneEpochUnlessRotated(events: set<Record>)
    ensures Rotated(events) <==> |EpochOf(events)| > 1
    ensures EpochOf(events) == {} <==> events == {}
  {
    if Rotated(events) {
      var r, s :| r in events && s in events && r.epoch != s.epoch;
      assert {r.epoch, s.epoch} <= EpochOf(events);
      SubsetSize({r.epoch, s.epoch}, EpochOf(events));
    } else if events != {} {
      var r :| r in events;
      assert EpochOf(events) == {r.epoch};
    }
  }

  method MakeReport(records: seq<Record>, b: Bounds) returns (answer: Result<Report, Refusal>)
    ensures IsAnswer(answer, Events(records, b), CoveredCount(records, b), b)
  {
    if !(b.coverageStart <= b.start < b.end) {
      return Err(InvalidInterval);
    }
    ghost var events := Events(records, b);
    var unique, duplicates, epochs, conflict := CollectUnique(records, b);
    if conflict {
      return Err(ConflictingDuplicate);
    }
    OneEpochUnlessRotated(events);
    if |epochs| > 1 {
      return Err(IdentityRotation);
    }
    var c := CountAll(unique, b);
    DistinctSize(unique);
    DaysAreNotEmpty(events);
    var d1 := Retain(c.days, 1, b);
    var d7 := Retain(c.days, 7, b);
    var epoch: Option<string> := None;
    if epochs != {} {
      var e :| e in epochs;
      OnlyElement(epochs, e);
      epoch := Some(e);
    }
    var useful := Count(c.assessments, PassVerdict) + Count(c.assessments, LimitVerdict) + Count(c.assessments, HoldVerdict);
    return Ok(Report(epoch, c.assessments, useful, c.anonymous, |c.active|, d1, d7, c.operations, c.excluded, duplicates));
  }

  lemma OnlyElement(s: set<string>, e: string)
    requires |s| <= 1 && e in s
    ensures s == {e}
  {
    SubsetSize({e}, s);
    if s != {e} {
      var x :| x in s && x != e;
      SubsetSize({e, x}, s);
    }
  }

  // ----- consequences -----

  /** Answers to the same events are the same, except for how many records were repeats. */
  lemma AnswersAgree(x: Result<Report, Refusal>, y: Result<Report, Refusal>, events: set<Record>, m: nat, n: nat, b: Bounds)
    requires IsAnswer(x, events, m, b) && IsAnswer(y, events, n, b)
    ensures x.Err? <==> y.Err?
    ensures x.Err? ==> x == y
    ensures x.Ok? ==> x.value.(duplicates := 0) == y.value.(duplicates := 0) && x.value.duplicates - m == y.value.duplicates - n
  {
    if x.Ok? && x.value.epoch.Some? {
      assert x.value.epoch.value in EpochOf(events) && y.value.epoch.value in EpochOf(events);
    }
  }

  lemma {:induction false} CoveredCountAdds(xs: seq<Record>, ys: seq<Record>, b: Bounds)
    ensures CoveredCount(xs + ys, b) == CoveredCount(xs, b) + CoveredCount(ys, b)
    decreases |ys|
  {
    if ys == [] {
      assert xs + ys == xs;
    } else {
      var n := |ys| - 1;
      CoveredCountAdds(xs, ys[..n], b);
      assert (xs + ys)[..|xs| + n] == xs + ys[..n];
    }
  }

  /** Taking one element out of a sequence takes one copy of it out of its multiset. */
  lemma WithoutOne<T>(xs: seq<T>, j: nat)
    requires j < |xs|
    ensures multiset(xs[..j] + xs[j + 1..]) == multiset(xs) - multiset{xs[j]}
  {
    assert xs == xs[..j] + [xs[j]] + xs[j + 1..];
  }

  /** Wherever a record stands, leaving it out takes its share out of the count. */
  lemma CoveredCountWithoutOne(xs: seq<Record>, j: nat, b: Bounds)
    requires j < |xs|
    ensures CoveredCount(xs, b) == CoveredCount(xs[..j] + xs[j + 1..], b) + CoveredCount([xs[j]], b)
  {
    CoveredCountAdds(xs[..j], xs[j + 1..], b);
    CoveredCountAdds(xs[..j], [xs[j]], b);
    CoveredCountAdds(xs[..j] + [xs[j]], xs[j + 1..], b);
    assert xs == xs[..j] + [xs[j]] + xs[j + 1..];
  }

  /** The number of covered records does not depend on their order. */
  lemma {:induction false} CoveredCountPermutes(xs: seq<Record>, ys: seq<Record>, b: Bounds)
    requires multiset(xs) == multiset(ys)
    ensures CoveredCount(xs, b) == CoveredCount(ys, b)
    decreases |xs|
  {
    if xs == [] {
      assert |multiset(ys)| == 0;
    } else {
      var n := |xs| - 1;
      assert xs[n] in multiset(ys);
      var j :| 0 <= j < |ys| && ys[j] == xs[n];
      WithoutOne(xs, n);
      WithoutOne(ys, j);
      CoveredCountPermutes(xs[..n] + xs[n + 1..], ys[..j] + ys[j + 1..], b);
      CoveredCountWithoutOne(xs, n, b);
      CoveredCountWithoutOne(ys, j, b);
    }
  }

  /** Every permutation of a log gets the same report or the same refusal. */
  lemma OrderDoesNotMatter(records: seq<Record>, permuted: seq<Record>, b: Bounds,
                           x: Result<Report, Refusal>, y: Result<Report, Refusal>)
    requires multiset(records) == multiset(permuted)
    requires IsAnswer(x, Events(records, b), CoveredCount(records, b), b)
    requires IsAnswer(y, Events(permuted, b), CoveredCount(permuted, b), b)
    ensures x == y
  {
    forall r ensures r in records <==> r in permuted {
      assert r in multiset(records) <==> r in multiset(permuted);
    }
    assert Events(records, b) == Events(permuted, b);
    CoveredCountPermutes(records, permuted, b);
    AnswersAgree(x, y, Events(records, b), CoveredCount(records, b), CoveredCount(permuted, b), b);
  }

  /** Repeating records that are already there changes only the count of duplicates, by exactly the repeats. */
  lemma RepeatsOnlyCountAsDuplicates(records: seq<Record>, repeats: seq<Record>, b: Bounds,
                                     x: Result<Report, Refusal>, y: Result<Report, Refusal>)
    requires forall r :: r in repeats ==> r in records
    requires IsAnswer(x, Events(records, b), CoveredCount(records, b), b)
    requires IsAnswer(y, Events(records + repeats, b), CoveredCount(records + repeats, b), b)
    ensures x.Err? ==> y == x
    ensures x.Ok? ==> y == Ok(x.value.(duplicates := x.value.duplicates + CoveredCount(repeats, b)))
  {
    assert Events(records + repeats, b) == Events(records, b);
    CoveredCountAdds(records, repeats, b);
    AnswersAgree(x, y, Events(records, b), CoveredCount(records, b), CoveredCount(records + repeats, b), b);
  }

  /** The sum of a counter. */
  ghost function Total<K>(m: map<K, nat>): nat
    decreases |m|
  {
    if m == map[] then 0
    else
      var k :| k in m;
      m[k] + Total(m - {k})
  }

  lemma {:induction false} TotalWithout<K>(m: map<K, nat>, k: K)
    requires k in m
    ensures Total(m) == m[k] + Total(m - {k})
    decreases |m|
  {
    var c :| c in m && Total(m) == m[c] + Total(m - {c});
    if c != k {
      TotalWithout(m - {c}, k);
      TotalWithout(m - {k}, c);
      assert m - {c} - {k} == m - {k} - {c};
    }
  }

  lemma TotalOfBump<K>(m: map<K, nat>, k: K)
    ensures Total(Bump(m, k)) == Total(m) + 1
  {
    TotalWithout(Bump(m, k), k);
    if k in m {
      TotalWithout(m, k);
      assert Bump(m, k) - {k} == m - {k};
    } else {
      assert Bump(m, k) - {k} == m;
    }
  }

  function Keyed<K>(events: set<Record>, key: Record -> Option<K>): set<Record> {
    set r | r in events && key(r).Some?
  }

  lemma KeyedGrows<K(!new)>(rest: set<Record>, r: Record, key: Record -> Option<K>)
    requires r !in rest
    ensures |Keyed(rest + {r}, key)| == |Keyed(rest, key)| + (if key(r).Some? then 1 else 0)
  {
    assert Keyed(rest + {r}, key) == Keyed(rest, key) + (if key(r).Some? then {r} else {});
  }

  lemma TallyTotalStep<K(!new)>(rest: set<Record>, r: Record, key: Record -> Option<K>)
    requires r !in rest && Total(Tally(rest, key)) == |Keyed(rest, key)|
    ensures Total(Tally(rest + {r}, key)) == |Keyed(rest + {r}, key)|
  {
    KeyedGrows(rest, r, key);
    TallyGrows(rest, r, key);
    if key(r).Some? {
      TotalOfBump(Tally(rest, key), key(r).value);
    }
  }

  /** A tally counts every record that has a key, once. */
  lemma {:induction false} TallyTotal<K(!new)>(events: set<Record>, key: Record -> Option<K>)
    ensures Total(Tally(events, key)) == |Keyed(events, key)|
    decreases |events|
  {
    if events == {} {
      assert Tally(events, key) == map[];
    } else {
      var r :| r in events;
      TallyTotal(events - {r}, key);
      TallyTotalStep(events - {r}, r, key);
      assert events - {r} + {r} == events;
    }
  }

  lemma WindowSplits(events: set<Record>, b: Bounds)
    ensures |set r | r in events && InWindow(r, b)|
            == |Keyed(events, r => OperationKey(r, b))| + |Keyed(events, r => ExcludedKey(r, b))|
  {
    var all := set r | r in events && InWindow(r, b);
    var operations, excluded := Keyed(events, r => OperationKey(r, b)), Keyed(events, r => ExcludedKey(r, b));
    assert all == operations + excluded && operations !! excluded;
  }

  /** Conservation: every event in the window is counted exactly once, as an operation or as excluded traffic. */
  lemma WindowIsPartitioned(report: Report, events: set<Record>, b: Bounds)
    requires IsReport(report, events, b)
    ensures |set r | r in events && InWindow(r, b)| == Total(report.operations) + Total(report.excluded)
  {
    TallyTotal(events, r => OperationKey(r, b));
    TallyTotal(events, r => ExcludedKey(r, b));
    WindowSplits(events, b);
  }

  lemma RetentionIsAFraction(days: map<string, set<int>>, offset: int, b: Bounds)
    ensures RetentionOf(days, offset, b).returned <= RetentionOf(days, offset, b).eligible <= |days|
  {
    var eligible := set who | who in days && Eligible(days[who], offset, b);
    var returned := set who | who in days && CameBack(days[who], offset, b);
    SubsetSize(returned, eligible);
    SubsetSize(eligible, days.Keys);
  }

  /** Nobody returns who was not eligible, and the seven-day cohort is part of the one-day cohort. */
  lemma ReturnedNeverExceedsEligible(report: Report, events: set<Record>, b: Bounds)
    requires IsReport(report, events, b)
    ensures report.d1.returned <= report.d1.eligible && report.d7.returned <= report.d7.eligible
    ensures report.d7.eligible <= report.d1.eligible
  {
    var days := Days(events);
    RetentionIsAFraction(days, 1, b);
    RetentionIsAFraction(days, 7, b);
    var seven := set who | who in days && Eligible(days[who], 7, b);
    var one := set who | who in days && Eligible(days[who], 1, b);
    forall who | who in seven ensures who in one {
      var first :| IsFirst(days[who], first) && Countable(first, 7, b);
      assert Countable(first, 1, b);
    }
    SubsetSize(seven, one);
  }
}
