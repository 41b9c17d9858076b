/**
 * What a resume, a recovery, a snapshot and a backup each do under an arbitrary plan of faults: when they go through, how
 * far they get otherwise, and the machine they leave, in terms of the faults and the machine they began with.
 */
module HostBackupSteps {
  import opened Basics
  import opened HostBackup

  predicate Happens(fault: Fault) {
    fault in {Fine, RaiseAfter, CrashAfter}
  }

  predicate Crashes(fault: Fault) {
    fault in {CrashBefore, CrashAfter}
  }

  // ----- resuming -----

  /** The guards are those of the intent, and the host is in one of its two stable states. */
  predicate MayResume(w: World, i: Intent, own: bool, plan: Plan) {
    && plan(GuardCheck(own)) == Fine && w.guards == i.guards
    && plan(StateCheck(own)) == Fine && w.host in {Active, Inactive}
  }

  predicate MustStart(w: World, i: Intent) {
    i.previouslyActive && w.host == Inactive
  }

  predicate Starts(w: World, i: Intent, own: bool, plan: Plan) {
    MayResume(w, i, own, plan) && MustStart(w, i) && Happens(plan(StartHost(own)))
  }

  /** Everything up to the write is done: a host that was active is active, and answers. */
  predicate IsReady(w: World, i: Intent, own: bool, plan: Plan) {
    && MayResume(w, i, own, plan)
    && (MustStart(w, i) ==> plan(StartHost(own)) == Fine) && (i.previouslyActive ==> plan(Ready(own)) == Fine)
  }

  predicate Resumes(w: World, i: Intent, own: bool, plan: Plan) {
    IsReady(w, i, own, plan) && plan(WriteResumed(own)) == Fine
  }

  /** The resume is cut off for good. */
  predicate ResumeCrashes(w: World, i: Intent, own: bool, plan: Plan) {
    || Crashes(plan(GuardCheck(own)))
    || (plan(GuardCheck(own)) == Fine && w.guards == i.guards && Crashes(plan(StateCheck(own))))
    || (MayResume(w, i, own, plan) && MustStart(w, i) && Crashes(plan(StartHost(own))))
    || (&& MayResume(w, i, own, plan) && i.previouslyActive && (MustStart(w, i) ==> plan(StartHost(own)) == Fine)
        && Crashes(plan(Ready(own))))
    || (IsReady(w, i, own, plan) && Crashes(plan(WriteResumed(own))))
  }

  ghost function ResumedWorld(w: World, i: Intent, own: bool, plan: Plan): World {
    var starts := Starts(w, i, own, plan);
    World(if IsReady(w, i, own, plan) && Happens(plan(WriteResumed(own)))
            then Some(Intent(i.runId, i.previouslyActive, i.guards, Resumed)) else w.intent,
          if starts then Active else w.host, w.guards, w.operatorLocked, w.plain, if starts then w.log + [Started] else w.log)
  }

  /** The first three steps, up to the point at which the host runs if it is to. */
  ghost function Begun(w: World, i: Intent, own: bool, plan: Plan): Point {
    var guarded := Check(Point(w, Running), plan(GuardCheck(own)), w.guards == i.guards);
    var stable := Check(guarded, plan(StateCheck(own)), w.host != Unstable);
    if MustStart(w, i) then Act(stable, plan(StartHost(own)), w.(host := Active, log := w.log + [Started])) else stable
  }

  lemma BegunExactly(w: World, i: Intent, own: bool, plan: Plan)
    ensures var begun := Begun(w, i, own, plan);
            && begun.world == (if Starts(w, i, own, plan) then w.(host := Active, log := w.log + [Started]) else w)
            && (begun.outcome == Running <==>
                  MayResume(w, i, own, plan) && (MustStart(w, i) ==> plan(StartHost(own)) == Fine))
            && (begun.outcome == Crashed <==>
                  || Crashes(plan(GuardCheck(own)))
                  || (plan(GuardCheck(own)) == Fine && w.guards == i.guards && Crashes(plan(StateCheck(own))))
                  || (MayResume(w, i, own, plan) && MustStart(w, i) && Crashes(plan(StartHost(own)))))
  {
  }

  lemma ResumeStages(w: World, i: Intent, own: bool, plan: Plan)
    requires i.phase == Quiescing
    ensures var begun := Begun(w, i, own, plan);
            var ready := if i.previouslyActive
                         then Check(begun, plan(Ready(own)), begun.world.guards == i.guards && begun.world.host == Active)
                         else begun;
            ResumeSpec(Point(w, Running), i, own, plan)
            == Act(ready, plan(WriteResumed(own)), ready.world.(intent := Some(i.(phase := Resumed))))
  {
  }

  /** An intent that is still quiescing is resumed in this order; any other is left as it is. */
  lemma ResumeExactly(w: World, i: Intent, own: bool, plan: Plan)
    ensures var r := ResumeSpec(Point(w, Running), i, own, plan);
            if i.phase == Quiescing then
              && r.world == ResumedWorld(w, i, own, plan)
              && (r.outcome == Running <==> Resumes(w, i, own, plan))
              && (r.outcome == Crashed <==> ResumeCrashes(w, i, own, plan))
            else r == Point(w, Running)
  {
    if i.phase == Quiescing {
      ResumeStages(w, i, own, plan);
      BegunExactly(w, i, own, plan);
    }
  }

  // ----- recovering -----

  predicate Cleans(own: bool, plan: Plan) {
    plan(RemoveRun(own)) == Fine && plan(WriteComplete(own)) == Fine
  }

  ghost function CleanedWorld(w: World, i: Intent, own: bool, plan: Plan): World {
    World(if plan(RemoveRun(own)) == Fine && Happens(plan(WriteComplete(own)))
            then Some(Intent(i.runId, i.previouslyActive, i.guards, Complete)) else w.intent,
          w.host, w.guards, w.operatorLocked, if Happens(plan(RemoveRun(own))) then w.plain - {i.runId} else w.plain, w.log)
  }

  lemma CleanupExactly(w: World, i: Intent, own: bool, plan: Plan)
    ensures var r := CleanupSpec(Point(w, Running), i, own, plan);
            && r.world == CleanedWorld(w, i, own, plan) && (r.outcome == Running <==> Cleans(own, plan))
            && (r.outcome == Crashed <==>
                  Crashes(plan(RemoveRun(own))) || (plan(RemoveRun(own)) == Fine && Crashes(plan(WriteComplete(own)))))
  {
  }

  predicate Recovers(w: World, plan: Plan) {
    && plan(TakeLocks) == Fine && plan(ReadIntent) == Fine
    && (w.intent.Some? && w.intent.value.phase == Quiescing ==> Resumes(w, w.intent.value, false, plan))
    && (w.intent.Some? && w.intent.value.phase != Complete ==> Cleans(false, plan))
  }

  /** Nothing happens before the locks are held and the intent is read, nor to an intent that is complete. */
  ghost function RecoveredWorld(w: World, plan: Plan): World {
    if plan(TakeLocks) != Fine || plan(ReadIntent) != Fine || w.intent.None? || w.intent.value.phase == Complete then w
    else if w.intent.value.phase == Resumed then CleanedWorld(w, w.intent.value, false, plan)
    else if !Resumes(w, w.intent.value, false, plan) then ResumedWorld(w, w.intent.value, false, plan)
    else CleanedWorld(ResumedWorld(w, w.intent.value, false, plan), w.intent.value, false, plan)
  }

  lemma RecoverExactly(w: World, plan: Plan)
    ensures var r := RecoverSpec(w, plan);
            r.world == RecoveredWorld(w, plan) && (r.outcome == Running <==> Recovers(w, plan))
  {
    if w.intent.Some? && plan(TakeLocks) == Fine && plan(ReadIntent) == Fine {
      var i := w.intent.value;
      ResumeExactly(w, i, false, plan);
      var resumed := ResumeSpec(Point(w, Running), i, false, plan);
      CleanupExactly(resumed.world, i.(phase := Resumed), false, plan);
    }
  }

  // ----- capturing -----

  predicate Stops(i: Intent, plan: Plan) {
    i.previouslyActive && Happens(plan(StopHost))
  }

  /** The host was stopped, if need be, and is seen to be inactive. */
  predicate IsQuiet(w: World, i: Intent, plan: Plan) {
    && (i.previouslyActive ==> plan(StopHost) == Fine)
    && plan(QuietCheck) == Fine && (i.previouslyActive || w.host == Inactive)
  }

  /** Quiet, under the operator lock, with the guards the intent recorded. */
  predicate MayCapture(w: World, i: Intent, plan: Plan) {
    IsQuiet(w, i, plan) && plan(OperatorLock) == Fine && plan(GuardsBefore) == Fine && w.guards == i.guards
  }

  predicate Captures(w: World, i: Intent, plan: Plan) {
    MayCapture(w, i, plan) && Happens(plan(Capture))
  }

  predicate CaptureStands(w: World, i: Intent, plan: Plan) {
    MayCapture(w, i, plan) && plan(Capture) == Fine && plan(GuardsAfter) == Fine
  }

  predicate QuiesceCrashes(w: World, i: Intent, plan: Plan) {
    || (i.previouslyActive && Crashes(plan(StopHost)))
    || ((i.previouslyActive ==> plan(StopHost) == Fine) && Crashes(plan(QuietCheck)))
    || (IsQuiet(w, i, plan) && Crashes(plan(OperatorLock)))
    || (IsQuiet(w, i, plan) && plan(OperatorLock) == Fine && Crashes(plan(GuardsBefore)))
    || (MayCapture(w, i, plan) && Crashes(plan(Capture)))
    || (MayCapture(w, i, plan) && plan(Capture) == Fine && Crashes(plan(GuardsAfter)))
  }

  ghost function CapturedWorld(w: World, i: Intent, plan: Plan): World {
    World(w.intent, if Stops(i, plan) then Inactive else w.host, w.guards, false,
          if Captures(w, i, plan) then w.plain + {i.runId} else w.plain,
          w.log + (if Stops(i, plan) then [Stopped] else [])
          + (if Captures(w, i, plan) then [Captured(Inactive, true)] else []))
  }

  lemma QuietExactly(w: World, i: Intent, plan: Plan)
    ensures var stopped := if i.previouslyActive
                           then Act(Point(w, Running), plan(StopHost), w.(host := Inactive, log := w.log + [Stopped]))
                           else Point(w, Running);
            var quiet := Check(stopped, plan(QuietCheck), stopped.world.host == Inactive);
            && quiet.world == (if Stops(i, plan) then w.(host := Inactive, log := w.log + [Stopped]) else w)
            && (quiet.outcome == Running <==> IsQuiet(w, i, plan))
            && (quiet.outcome == Crashed <==>
                  || (i.previouslyActive && Crashes(plan(StopHost)))
                  || ((i.previouslyActive ==> plan(StopHost) == Fine) && Crashes(plan(QuietCheck))))
  {
  }

  lemma QuiesceExactly(w: World, i: Intent, plan: Plan)
    ensures var r := QuiesceSpec(Point(w, Running), i, plan);
            && r.world == CapturedWorld(w, i, plan)
            && (r.outcome == Running <==> CaptureStands(w, i, plan))
            && (r.outcome == Crashed <==> QuiesceCrashes(w, i, plan))
  {
    QuietExactly(w, i, plan);
  }

  // ----- a snapshot -----

  /** What a snapshot records of a machine before it touches it. */
  ghost function Recorded(w: World, runId: string): Intent {
    Intent(runId, w.host == Active, w.guards, Quiescing)
  }

  /** The machine once that is durable. */
  ghost function Claimed(w: World, runId: string): World {
    World(Some(Recorded(w, runId)), w.host, w.guards, w.operatorLocked, w.plain, w.log)
  }

  /** From a machine on which nothing is unfinished. */
  predicate MayQuiesce(w: World, plan: Plan) {
    plan(StableCheck) == Fine && w.host in {Active, Inactive}
  }

  ghost predicate Snaps(w: World, runId: string, plan: Plan) {
    var i, claimed := Recorded(w, runId), Claimed(w, runId);
    && MayQuiesce(w, plan) && plan(WriteIntent) == Fine && CaptureStands(claimed, i, plan)
    && Resumes(CapturedWorld(claimed, i, plan), i, true, plan)
  }

  ghost predicate SnapCrashes(w: World, runId: string, plan: Plan) {
    var i, claimed := Recorded(w, runId), Claimed(w, runId);
    || Crashes(plan(StableCheck))
    || (MayQuiesce(w, plan) && Crashes(plan(WriteIntent)))
    || (&& MayQuiesce(w, plan) && plan(WriteIntent) == Fine
        && (QuiesceCrashes(claimed, i, plan) || ResumeCrashes(CapturedWorld(claimed, i, plan), i, true, plan)))
  }

  /** The intent is durable before anything else happens; after the quiesce, unless it crashed, the host is resumed. */
  ghost function SnappedWorld(w: World, runId: string, plan: Plan): World {
    var i, claimed := Recorded(w, runId), Claimed(w, runId);
    if !MayQuiesce(w, plan) || !Happens(plan(WriteIntent)) then w
    else if plan(WriteIntent) != Fine then claimed
    else if QuiesceCrashes(claimed, i, plan) then CapturedWorld(claimed, i, plan)
    else ResumedWorld(CapturedWorld(claimed, i, plan), i, true, plan)
  }

  /** The write of the intent, and what can keep it from happening. */
  ghost function Written(w: World, runId: string, plan: Plan): Point {
    Act(Check(Point(w, Running), plan(StableCheck), w.host != Unstable), plan(WriteIntent), Claimed(w, runId))
  }

  lemma WrittenExactly(w: World, runId: string, plan: Plan)
    ensures var written := Written(w, runId, plan);
            && written.world == (if MayQuiesce(w, plan) && Happens(plan(WriteIntent)) then Claimed(w, runId) else w)
            && (written.outcome == Running <==> MayQuiesce(w, plan) && plan(WriteIntent) == Fine)
            && (written.outcome == Crashed <==>
                  Crashes(plan(StableCheck)) || (MayQuiesce(w, plan) && Crashes(plan(WriteIntent))))
  {
  }

  lemma SnapshotFrom(w: World, runId: string, plan: Plan)
    requires !(w.intent.Some? && w.intent.value.phase == Quiescing)
    ensures var i, written := Recorded(w, runId), Written(w, runId, plan);
            SnapshotSpec(Point(w, Running), runId, plan)
            == if written.outcome != Running then written else FinallyResume(QuiesceSpec(written, i, plan), i, plan)
  {
  }

  lemma FinallyExactly(body: Point, i: Intent, plan: Plan)
    requires i.phase == Quiescing
    ensures var r := FinallyResume(body, i, plan);
            && r.world == (if body.outcome == Crashed then body.world else ResumedWorld(body.world, i, true, plan))
            && (r.outcome == Running <==> body.outcome == Running && Resumes(body.world, i, true, plan))
            && (r.outcome == Crashed <==> body.outcome == Crashed || ResumeCrashes(body.world, i, true, plan))
  {
    ResumeExactly(body.world, i, true, plan);
  }

  lemma SnapshotExactly(w: World, runId: string, plan: Plan)
    requires !(w.intent.Some? && w.intent.value.phase == Quiescing)
    ensures var r := SnapshotSpec(Point(w, Running), runId, plan);
            && r.world == SnappedWorld(w, runId, plan) && (r.outcome == Running <==> Snaps(w, runId, plan))
            && (r.outcome == Crashed <==> SnapCrashes(w, runId, plan))
  {
    SnapshotFrom(w, runId, plan);
    WrittenExactly(w, runId, plan);
    if MayQuiesce(w, plan) && plan(WriteIntent) == Fine {
      QuiesceExactly(Claimed(w, runId), Recorded(w, runId), plan);
      FinallyExactly(QuiesceSpec(Point(Claimed(w, runId), Running), Recorded(w, runId), plan), Recorded(w, runId), plan);
    }
  }

  lemma SnapshotResumesFirst(w: World, runId: string, plan: Plan)
    requires w.intent.Some?
    ensures var earlier := ResumeSpec(Point(w, Running), w.intent.value, false, plan);
            SnapshotSpec(Point(w, Running), runId, plan)
            == if earlier.outcome == Running then SnapshotSpec(Point(earlier.world, Running), runId, plan) else earlier
  {
  }

  /** An unfinished quiesce is resumed first, and stands in the way if it cannot be. */
  lemma SnapshotOverUnfinished(w: World, runId: string, plan: Plan)
    requires w.intent.Some? && w.intent.value.phase == Quiescing
    ensures var r := SnapshotSpec(Point(w, Running), runId, plan);
            var resumed := ResumedWorld(w, w.intent.value, false, plan);
            if Resumes(w, w.intent.value, false, plan) then
              r.world == SnappedWorld(resumed, runId, plan) && (r.outcome == Running <==> Snaps(resumed, runId, plan))
            else r.world == resumed && r.outcome != Running
  {
    SnapshotResumesFirst(w, runId, plan);
    ResumeExactly(w, w.intent.value, false, plan);
    if Resumes(w, w.intent.value, false, plan) {
      SnapshotExactly(ResumedWorld(w, w.intent.value, false, plan), runId, plan);
    }
  }

  // ----- a backup -----

  ghost predicate BacksUp(w: World, runId: string, recovery: Plan, plan: Plan) {
    && Recovers(w, recovery) && plan(Prepare) == Fine && Snaps(RecoveredWorld(w, recovery), runId, plan)
    && plan(Ship) == Fine && plan(ReadOwnIntent) == Fine && Cleans(true, plan)
  }

  /** The clean-up is for the own run, when its host was resumed, and never after a crash. */
  ghost function BackedUpWorld(w: World, runId: string, recovery: Plan, plan: Plan): World {
    var recovered := RecoveredWorld(w, recovery);
    var snapped := SnappedWorld(recovered, runId, plan);
    if !Recovers(w, recovery) || plan(Prepare) != Fine then recovered
    else if SnapCrashes(recovered, runId, plan) || (Snaps(recovered, runId, plan) && Crashes(plan(Ship))) then snapped
    else if && plan(ReadOwnIntent) == Fine && snapped.intent.Some? && snapped.intent.value.runId == runId
            && snapped.intent.value.phase == Resumed
    then CleanedWorld(snapped, snapped.intent.value, true, plan)
    else snapped
  }

  lemma FinishExactly(body: Point, runId: string, plan: Plan)
    ensures var w := body.world;
            var r := FinallyCleanup(body, runId, plan);
            var mine := w.intent.Some? && w.intent.value.runId == runId && w.intent.value.phase == Resumed;
            && r.world == (if body.outcome != Crashed && plan(ReadOwnIntent) == Fine && mine
                           then CleanedWorld(w, w.intent.value, true, plan) else w)
            && (r.outcome == Running <==>
                  body.outcome == Running && plan(ReadOwnIntent) == Fine && (mine ==> Cleans(true, plan)))
  {
    if body.world.intent.Some? {
      CleanupExactly(body.world, body.world.intent.value, true, plan);
    }
  }

  lemma RecoveredIsAtRest(w: World, plan: Plan)
    requires Recovers(w, plan)
    ensures RecoveredWorld(w, plan).intent.Some? ==> RecoveredWorld(w, plan).intent.value.phase == Complete
  {
  }

  /** A snapshot that goes through stops a running host, captures it inactive and locked, and starts it again. */
  lemma CompletedSnapshot(w: World, runId: string, plan: Plan)
    requires Snaps(w, runId, plan)
    ensures var stop, start := if w.host == Active then [Stopped] else [], if w.host == Active then [Started] else [];
            SnappedWorld(w, runId, plan)
            == World(Some(Intent(runId, w.host == Active, w.guards, Resumed)), w.host, w.guards, false, w.plain + {runId},
                     w.log + stop + [Captured(Inactive, true)] + start)
  {
  }

  lemma BackupExactly(w: World, runId: string, recovery: Plan, plan: Plan)
    ensures var r := BackupSpec(w, runId, recovery, plan);
            r.world == BackedUpWorld(w, runId, recovery, plan) && (r.outcome == Running <==> BacksUp(w, runId, recovery, plan))
  {
    RecoverExactly(w, recovery);
    if Recovers(w, recovery) && plan(Prepare) == Fine {
      var recovered := RecoverSpec(w, recovery);
      RecoveredIsAtRest(w, recovery);
      SnapshotExactly(recovered.world, runId, plan);
      var shipped := SnapshotSpec(recovered, runId, plan);
      FinishExactly(Act(shipped, plan(Ship), shipped.world), runId, plan);
      if Snaps(recovered.world, runId, plan) {
        CompletedSnapshot(recovered.world, runId, plan);
      }
    }
  }

  /** A backup that goes through leaves the host as the recovery left it, its own intent complete and its plaintext gone. */
  lemma CompletedBackup(w: World, runId: string, recovery: Plan, plan: Plan)
    requires BacksUp(w, runId, recovery, plan)
    ensures var before := RecoveredWorld(w, recovery);
            var stop, start := if before.host == Active then [Stopped] else [], if before.host == Active then [Started] else [];
            BackupSpec(w, runId, recovery, plan).world
            == World(Some(Intent(runId, before.host == Active, before.guards, Complete)), before.host, before.guards, false,
                     before.plain - {runId}, before.log + stop + [Captured(Inactive, true)] + start)
  {
    BackupExactly(w, runId, recovery, plan);
    CompletedSnapshot(RecoveredWorld(w, recovery), runId, plan);
  }
}
