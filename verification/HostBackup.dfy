/**
 * Quiesce, capture and resume of the agent host under a write-ahead intent.  Every step can fail, before
 * or after its effect, or be the last one before a crash.
 */
module HostBackup {
  import opened Basics

  datatype HostState = Active | Inactive | Unstable

  datatype Phase = Quiescing | Resumed | Complete

  datatype Intent = Intent(runId: string, previouslyActive: bool, guards: string, phase: Phase)

  datatype Event = Started | Stopped | Captured(host: HostState, operatorLock: bool)

  /** The machine: the durable intent, the host unit, the guard files, the operator lock, the runs that hold captured plaintext. */
  datatype World = World(intent: Option<Intent>, host: HostState, guards: string, operatorLocked: bool, plain: set<string>, log: seq<Event>)

  /** Where a run can be interrupted; a resume for an older intent and for one's own are told apart. */
  datatype Step =
    | TakeLocks | ReadIntent | GuardCheck(own: bool) | StateCheck(own: bool) | StartHost(own: bool) | Ready(own: bool)
    | WriteResumed(own: bool) | StableCheck | WriteIntent | StopHost | QuietCheck | OperatorLock | GuardsBefore | Capture
    | GuardsAfter | Prepare | Ship | RemoveRun(own: bool) | WriteComplete(own: bool) | ReadOwnIntent

  datatype Fault = Fine | RaiseBefore | RaiseAfter | CrashBefore | CrashAfter

  datatype Outcome = Running | Raised | Crashed

  datatype Point = Point(world: World, outcome: Outcome)

  type Plan = Step -> Fault

  predicate Effective(fault: Fault) {
    fault == Fine || fault == RaiseAfter || fault == CrashAfter
  }

  /** One durable or external step: its effect happens or not, and execution goes on, raises or stops for good. */
  function Act(p: Point, fault: Fault, next: World): Point {
    if p.outcome != Running then p
    else
      match fault
      case Fine => Point(next, Running)
      case RaiseBefore => Point(p.world, Raised)
      case RaiseAfter => Point(next, Raised)
      case CrashBefore => Point(p.world, Crashed)
      case CrashAfter => Point(next, Crashed)
  }

  /** A check, which can also fail or be interrupted by itself. */
  function Check(p: Point, fault: Fault, c: bool): Point {
    var q := Act(p, fault, p.world);
    if q.outcome == Running && !c then q.(outcome := Raised) else q
  }

  // ----- specification -----

  function ResumeSpec(p: Point, i: Intent, own: bool, plan: Plan): Point {
    if p.outcome != Running || i.phase != Quiescing then p
    else
      var guarded := Check(p, plan(GuardCheck(own)), p.world.guards == i.guards);
      var stable := Check(guarded, plan(StateCheck(own)), p.world.host != Unstable);
      var started := if i.previouslyActive && p.world.host == Inactive
                     then Act(stable, plan(StartHost(own)), p.world.(host := Active, log := p.world.log + [Started]))
                     else stable;
      var ready := if i.previouslyActive
                   then Check(started, plan(Ready(own)), started.world.guards == i.guards && started.world.host == Active)
                   else started;
      Act(ready, plan(WriteResumed(own)), ready.world.(intent := Some(i.(phase := Resumed))))
  }

  /** Removes the run named by a resumed intent, then marks the intent complete. */
  function CleanupSpec(p: Point, i: Intent, own: bool, plan: Plan): Point {
    var removed := Act(p, plan(RemoveRun(own)), p.world.(plain := p.world.plain - {i.runId}));
    Act(removed, plan(WriteComplete(own)), removed.world.(intent := Some(i.(phase := Complete))))
  }

  function RecoverSpec(w: World, plan: Plan): Point {
    var read := Act(Act(Point(w, Running), plan(TakeLocks), w), plan(ReadIntent), w);
    if read.outcome != Running || w.intent.None? then read
    else
      var i := w.intent.value;
      var resumed := ResumeSpec(read, i, false, plan);
      if resumed.outcome == Running && i.phase != Complete
      then CleanupSpec(resumed, i.(phase := Resumed), false, plan) else resumed
  }

  function QuiesceSpec(p: Point, i: Intent, plan: Plan): Point {
    var stopped := if i.previouslyActive
                   then Act(p, plan(StopHost), p.world.(host := Inactive, log := p.world.log + [Stopped])) else p;
    var quiet := Check(stopped, plan(QuietCheck), stopped.world.host == Inactive);
    var locked := Act(quiet, plan(OperatorLock), quiet.world.(operatorLocked := true));
    var before := Check(locked, plan(GuardsBefore), locked.world.guards == i.guards);
    var captured := Act(before, plan(Capture), before.world.(plain := before.world.plain + {i.runId},
                                                             log := before.world.log
                                                                    + [Captured(before.world.host, before.world.operatorLocked)]));
    var after := Check(captured, plan(GuardsAfter), captured.world.guards == i.guards);
    after.(world := after.world.(operatorLocked := false))
  }

  /** The finally clause: resume after success or an exception, never after a crash. */
  function FinallyResume(body: Point, i: Intent, plan: Plan): Point {
    if body.outcome == Crashed then body
    else
      var resumed := ResumeSpec(Point(body.world, Running), i, true, plan);
      if resumed.outcome == Running then resumed.(outcome := body.outcome) else resumed
  }

  function NewIntent(w: World, runId: string): Intent {
    Intent(runId, w.host == Active, w.guards, Quiescing)
  }

  function SnapshotSpec(p: Point, runId: string, plan: Plan): Point {
    if p.outcome != Running then p
    else
      var earlier := if p.world.intent.Some? then ResumeSpec(p, p.world.intent.value, false, plan) else p;
      var stable := Check(earlier, plan(StableCheck), earlier.world.host != Unstable);
      var i := NewIntent(stable.world, runId);
      var written := Act(stable, plan(WriteIntent), stable.world.(intent := Some(i)));
      if written.outcome != Running then written
      else FinallyResume(QuiesceSpec(written, i, plan), i, plan)
  }

  /** The finally clause of a backup: after a resumed snapshot the plaintext goes and the intent is completed. */
  function FinallyCleanup(body: Point, runId: string, plan: Plan): Point {
    if body.outcome == Crashed then body
    else
      var w := body.world;
      var cleaned := Act(Point(w, Running), plan(ReadOwnIntent), w);
      var done := if w.intent.Some? && w.intent.value.runId == runId && w.intent.value.phase == Resumed
                  then CleanupSpec(cleaned, w.intent.value, true, plan) else cleaned;
      if done.outcome == Running then done.(outcome := body.outcome) else done
  }

  function BackupSpec(w: World, runId: string, recovery: Plan, plan: Plan): Point {
    var recovered := RecoverSpec(w, recovery);
    var prepared := Act(recovered, plan(Prepare), recovered.world);
    if prepared.outcome != Running then prepared
    else
      var shipped := SnapshotSpec(prepared, runId, plan);
      FinallyCleanup(Act(shipped, plan(Ship), shipped.world), runId, plan)
  }

  // ----- the tool -----

  class HostBackup {
    var intent: Option<Intent>
    var host: HostState
    var guards: string
    var operatorLocked: bool
    var plain: set<string>
    var log: seq<Event>

    function View(): World
      reads this
    {
      World(intent, host, guards, operatorLocked, plain, log)
    }

    constructor (w: World)
      ensures View() == w
    {
      intent, host, guards, operatorLocked, plain, log := w.intent, w.host, w.guards, w.operatorLocked, w.plain, w.log;
    }

    /** What running a step with a planned fault does to control flow. */
    static function Interrupted(fault: Fault): Outcome {
      if fault == Fine then Running else if fault == RaiseBefore || fault == RaiseAfter then Raised else Crashed
    }

    method Resume(i: Intent, own: bool, plan: Plan) returns (r: Outcome)
      modifies this
      ensures Point(View(), r) == ResumeSpec(Point(old(View()), Running), i, own, plan)
    {
      if i.phase != Quiescing {
        return Running;
      }
      r := Interrupted(plan(GuardCheck(own)));
      if r != Running {
        return;
      }
      if guards != i.guards {
        return Raised;
      }
      r := Interrupted(plan(StateCheck(own)));
      if r != Running {
        return;
      }
      if host == Unstable {
        return Raised;
      }
      if i.previouslyActive && host == Inactive {
        if Effective(plan(StartHost(own))) {
          host, log := Active, log + [Started];
        }
        r := Interrupted(plan(StartHost(own)));
        if r != Running {
          return;
        }
      }
      if i.previouslyActive {
        r := WaitReady(i.guards, plan(Ready(own)));
        if r != Running {
          return;
        }
      }
      if Effective(plan(WriteResumed(own))) {
        intent := Some(i.(phase := Resumed));
      }
      r := Interrupted(plan(WriteResumed(own)));
    }

    /** Readiness: the host answers as the same active unit under the same guards, or the wait ends in an error. */
    method WaitReady(expected: string, fault: Fault) returns (r: Outcome)
      ensures Point(View(), r) == Check(Point(View(), Running), fault, guards == expected && host == Active)
    {
      r := Interrupted(fault);
      if r == Running && (guards != expected || host != Active) {
        r := Raised;
      }
    }

    method Cleanup(i: Intent, own: bool, plan: Plan) returns (r: Outcome)
      modifies this
      ensures Point(View(), r) == CleanupSpec(Point(old(View()), Running), i, own, plan)
    {
      if Effective(plan(RemoveRun(own))) {
        plain := plain - {i.runId};
      }
      r := Interrupted(plan(RemoveRun(own)));
      if r != Running {
        return;
      }
      if Effective(plan(WriteComplete(own))) {
        intent := Some(i.(phase := Complete));
      }
      r := Interrupted(plan(WriteComplete(own)));
    }

    method Recover(plan: Plan) returns (r: Outcome)
      modifies this
      ensures Point(View(), r) == RecoverSpec(old(View()), plan)
    {
      r := Interrupted(plan(TakeLocks));
      if r != Running {
        return;
      }
      r := Interrupted(plan(ReadIntent));
      if r != Running || intent.None? {
        return;
      }
      var i := intent.value;
      r := Resume(i, false, plan);
      if r != Running {
        return;
      }
      if i.phase != Complete {
        r := Cleanup(i.(phase := Resumed), false, plan);
      }
    }

    /** Stops the host if it ran, then captures under the operator lock. */
    method Quiesce(i: Intent, plan: Plan) returns (r: Outcome)
      modifies this
      ensures Point(View(), r) == QuiesceSpec(Point(old(View()), Running), i, plan)
    {
      if i.previouslyActive {
        if Effective(plan(StopHost)) {
          host, log := Inactive, log + [Stopped];
        }
        r := Interrupted(plan(StopHost));
        if r != Running {
          operatorLocked := false;
          return;
        }
      }
      r := Interrupted(plan(QuietCheck));
      if r == Running && host != Inactive {
        r := Raised;
      }
      if r != Running {
        operatorLocked := false;
        return;
      }
      if Effective(plan(OperatorLock)) {
        operatorLocked := true;
      }
      r := Interrupted(plan(OperatorLock));
      if r == Running {
        r := CaptureLocked(i, plan);
      }
      operatorLocked := false;
    }

    method CaptureLocked(i: Intent, plan: Plan) returns (r: Outcome)
      modifies this
      ensures var p := Point(old(View()), Running);
              var before := Check(p, plan(GuardsBefore), p.world.guards == i.guards);
              var captured := Act(before, plan(Capture), before.world.(plain := before.world.plain + {i.runId},
                                                                       log := before.world.log
                                                                              + [Captured(before.world.host, before.world.operatorLocked)]));
              Point(View(), r) == Check(captured, plan(GuardsAfter), captured.world.guards == i.guards)
    {
      r := Interrupted(plan(GuardsBefore));
      if r != Running {
        return;
      }
      if guards != i.guards {
        return Raised;
      }
      if Effective(plan(Capture)) {
        plain, log := plain + {i.runId}, log + [Captured(host, operatorLocked)];
      }
      r := Interrupted(plan(Capture));
      if r != Running {
        return;
      }
      r := Interrupted(plan(GuardsAfter));
      if r == Running && guards != i.guards {
        r := Raised;
      }
    }

    method Snapshot(runId: string, plan: Plan) returns (r: Outcome)
      modifies this
      ensures Point(View(), r) == SnapshotSpec(Point(old(View()), Running), runId, plan)
    {
      if intent.Some? {
        r := Resume(intent.value, false, plan);
        if r != Running {
          return;
        }
      }
      r := Interrupted(plan(StableCheck));
      if r != Running {
        return;
      }
      if host == Unstable {
        return Raised;
      }
      var i := NewIntent(View(), runId);
      if Effective(plan(WriteIntent)) {
        intent := Some(i);
      }
      r := Interrupted(plan(WriteIntent));
      if r != Running {
        return;
      }
      r := Quiesce(i, plan);
      if r == Crashed {
        return;
      }
      var resumed := Resume(i, true, plan);
      if resumed != Running {
        r := resumed;
      }
    }

    method Backup(runId: string, recovery: Plan, plan: Plan) returns (r: Outcome)
      modifies this
      ensures Point(View(), r) == BackupSpec(old(View()), runId, recovery, plan)
    {
      r := Recover(recovery);
      if r != Running {
        return;
      }
      r := Interrupted(plan(Prepare));
      if r != Running {
        return;
      }
      r := Snapshot(runId, plan);
      if r == Running {
        r := Interrupted(plan(Ship));
      }
      r := Finish(r, runId, plan);
    }

    method Finish(body: Outcome, runId: string, plan: Plan) returns (r: Outcome)
      modifies this
      ensures Point(View(), r) == FinallyCleanup(Point(old(View()), body), runId, plan)
    {
      r := body;
      if body == Crashed {
        return;
      }
      var finish := Interrupted(plan(ReadOwnIntent));
      if finish == Running && intent.Some? && intent.value.runId == runId && intent.value.phase == Resumed {
        finish := Cleanup(intent.value, true, plan);
      }
      if finish != Running {
        r := finish;
      }
    }
  }

  // ----- runs -----

  /** An attempt, or somebody changing the guard files between attempts. */
  datatype Attempt = Backup(runId: string, recovery: Plan, plan: Plan) | Recover(plan: Plan) | GuardsChanged(guards: string)

  function Attempted(w: World, a: Attempt): Point {
    match a
    case Backup(runId, recovery, plan) => BackupSpec(w, runId, recovery, plan)
    case Recover(plan) => RecoverSpec(w, plan)
    case GuardsChanged(guards) => Point(w.(guards := guards), Running)
  }

  /** Any number of attempts one after another, each ended by success, an exception or a crash. */
  function Run(w: World, attempts: seq<Attempt>): World
    decreases |attempts|
  {
    if attempts == [] then w else Attempted(Run(w, attempts[..|attempts| - 1]), attempts[|attempts| - 1]).world
  }

  predicate Unfinished(w: World) {
    w.intent.Some? && w.intent.value.phase == Quiescing
  }

  /**
   * The state of a machine whose host was in state `home` when the tool first touched it: between quiesces the
   * host is at home; during one the intent says what home was, and a host that was inactive is left inactive.
   */
  ghost predicate AtHome(w: World, home: HostState, logged: nat) {
    && home != Unstable && w.host != Unstable && logged <= |w.log|
    && (!Unfinished(w) ==> w.host == home)
    && (Unfinished(w) ==> w.intent.value.previouslyActive == (home == Active))
    && (home == Inactive ==> w.host == Inactive)
    && (forall k :: logged <= k < |w.log| ==> LoggedOk(w.log[k], home))
  }

  ghost predicate Homing(w: World, home: HostState, logged: nat) {
    AtHome(w, home, logged) && PlainIsNamed(w)
  }

  /** Nothing is started that was not running at first, and every capture ran quiet and locked. */
  predicate LoggedOk(e: Event, home: HostState) {
    match e
    case Started => home == Active
    case Stopped => home == Active
    case Captured(host, lock) => host == Inactive && lock
  }

  /** Captured plaintext exists only in the run that an uncompleted intent names. */
  predicate PlainIsNamed(w: World) {
    forall run :: run in w.plain ==> w.intent.Some? && w.intent.value.phase != Complete && w.intent.value.runId == run
  }

  lemma ResumeKeeps(p: Point, i: Intent, own: bool, plan: Plan, home: HostState, logged: nat)
    requires AtHome(p.world, home, logged) && p.world.intent == Some(i) && p.outcome == Running
    ensures var r := ResumeSpec(p, i, own, plan);
            && AtHome(r.world, home, logged) && r.world.intent.Some? && r.world.intent.value.runId == i.runId
            && r.world.plain == p.world.plain && (i.phase != Quiescing ==> r == p)
            && (r.world.intent.value.phase == Complete ==> i.phase == Complete)
            && (r.outcome == Running ==> r.world.host == home && !Unfinished(r.world)
                                         && r.world.intent.value == if i.phase == Quiescing then i.(phase := Resumed) else i)
  {
  }

  lemma CleanupKeeps(p: Point, i: Intent, own: bool, plan: Plan, home: HostState, logged: nat)
    requires Homing(p.world, home, logged) && p.world.intent == Some(i) && i.phase == Resumed && p.outcome == Running
    ensures var r := CleanupSpec(p, i, own, plan);
            && Homing(r.world, home, logged)
            && (r.outcome == Running ==> r.world.plain == {} && r.world.intent == Some(i.(phase := Complete)))
  {
  }

  lemma CleanupKeepsHome(p: Point, i: Intent, own: bool, plan: Plan, home: HostState, logged: nat)
    requires AtHome(p.world, home, logged) && !Unfinished(p.world) && i.phase == Resumed && p.outcome == Running
    ensures var r := CleanupSpec(p, i, own, plan);
            && AtHome(r.world, home, logged) && !Unfinished(r.world)
            && (r.outcome == Running ==> r.world.intent == Some(i.(phase := Complete)))
  {
  }

  lemma RecoverKeepsHome(w: World, plan: Plan, home: HostState, logged: nat)
    requires AtHome(w, home, logged)
    ensures var r := RecoverSpec(w, plan);
            && AtHome(r.world, home, logged)
            && (r.outcome == Running ==> r.world.host == home
                                         && (r.world.intent.Some? ==> r.world.intent.value.phase == Complete))
  {
    if w.intent.Some? && plan(TakeLocks) == Fine && plan(ReadIntent) == Fine {
      var p, i := Point(w, Running), w.intent.value;
      var resumed := ResumeSpec(p, i, false, plan);
      ResumeKeeps(p, i, false, plan, home, logged);
      if resumed.outcome == Running && i.phase != Complete {
        CleanupKeepsHome(resumed, i.(phase := Resumed), false, plan, home, logged);
      }
    }
  }

  lemma RecoverKeeps(w: World, plan: Plan, home: HostState, logged: nat)
    requires Homing(w, home, logged)
    ensures var r := RecoverSpec(w, plan);
            && Homing(r.world, home, logged)
            && (r.outcome == Running ==> r.world.host == home && r.world.plain == {}
                                         && (r.world.intent.Some? ==> r.world.intent.value.phase == Complete))
  {
    var p := Point(w, Running);
    RecoverKeepsHome(w, plan, home, logged);
    if w.intent.Some? && plan(TakeLocks) == Fine && plan(ReadIntent) == Fine {
      var i := w.intent.value;
      ResumeKeeps(p, i, false, plan, home, logged);
      var resumed := ResumeSpec(p, i, false, plan);
      if resumed.outcome == Running && i.phase != Complete {
        CleanupKeeps(resumed, i.(phase := Resumed), false, plan, home, logged);
      }
    }
  }

  /** A quiesce leaves the intent alone, and adds at most the plaintext of its own run. */
  lemma QuiesceLeaves(p: Point, i: Intent, plan: Plan)
    ensures var r := QuiesceSpec(p, i, plan).world;
            r.intent == p.world.intent && p.world.plain <= r.plain <= p.world.plain + {i.runId}
  {
  }

  lemma QuiesceKeeps(p: Point, i: Intent, plan: Plan, home: HostState, logged: nat)
    requires AtHome(p.world, home, logged) && p.world.intent == Some(i) && i.phase == Quiescing && p.outcome == Running
    ensures AtHome(QuiesceSpec(p, i, plan).world, home, logged)
  {
    QuiesceLeaves(p, i, plan);
  }

  /** From the point at which nothing is unfinished: the intent is written, then quiesce and resume. */
  lemma SnapshotFromRest(w: World, runId: string, plan: Plan, home: HostState, logged: nat)
    requires AtHome(w, home, logged) && !Unfinished(w)
    ensures var r := SnapshotSpec(Point(w, Running), runId, plan).world;
            && AtHome(r, home, logged) && w.plain <= r.plain <= w.plain + {runId}
            && (plan(StableCheck) == Fine && Effective(plan(WriteIntent))
                ==> r.intent.Some? && r.intent.value.runId == runId && r.intent.value.phase != Complete)
            && (!(plan(StableCheck) == Fine && Effective(plan(WriteIntent))) ==> r == w)
  {
    var i := NewIntent(w, runId);
    var written := Act(Check(Point(w, Running), plan(StableCheck), true), plan(WriteIntent), w.(intent := Some(i)));
    assert AtHome(w.(intent := Some(i)), home, logged);
    if written.outcome == Running {
      QuiesceKeeps(written, i, plan, home, logged);
      QuiesceLeaves(written, i, plan);
      var body := QuiesceSpec(written, i, plan);
      if body.outcome != Crashed {
        ResumeKeeps(Point(body.world, Running), i, true, plan, home, logged);
      }
    }
  }

  lemma SnapshotKeeps(w: World, runId: string, plan: Plan, home: HostState, logged: nat)
    requires Homing(w, home, logged) && w.plain == {} && !Unfinished(w)
    ensures Homing(SnapshotSpec(Point(w, Running), runId, plan).world, home, logged)
  {
    SnapshotFromRest(w, runId, plan, home, logged);
  }

  lemma BackupKeeps(w: World, runId: string, recovery: Plan, plan: Plan, home: HostState, logged: nat)
    requires Homing(w, home, logged)
    ensures Homing(BackupSpec(w, runId, recovery, plan).world, home, logged)
  {
    RecoverKeeps(w, recovery, home, logged);
    var recovered := RecoverSpec(w, recovery);
    if recovered.outcome == Running && plan(Prepare) == Fine {
      SnapshotKeeps(recovered.world, runId, plan, home, logged);
      var shipped := Act(SnapshotSpec(recovered, runId, plan), plan(Ship), SnapshotSpec(recovered, runId, plan).world);
      FinallyCleanupKeeps(shipped, runId, plan, home, logged);
    }
  }

  lemma FinallyCleanupKeeps(body: Point, runId: string, plan: Plan, home: HostState, logged: nat)
    requires Homing(body.world, home, logged)
    ensures Homing(FinallyCleanup(body, runId, plan).world, home, logged)
  {
    var w := body.world;
    if body.outcome != Crashed && plan(ReadOwnIntent) == Fine && w.intent.Some? && w.intent.value.runId == runId
       && w.intent.value.phase == Resumed {
      CleanupKeeps(Point(w, Running), w.intent.value, true, plan, home, logged);
    }
  }

  lemma {:induction false} RunKeeps(w: World, attempts: seq<Attempt>, home: HostState, logged: nat)
    requires Homing(w, home, logged)
    ensures Homing(Run(w, attempts), home, logged)
    decreases |attempts|
  {
    if attempts != [] {
      var n := |attempts| - 1;
      RunKeeps(w, attempts[..n], home, logged);
      var before := Run(w, attempts[..n]);
      match attempts[n] {
        case Backup(runId, recovery, plan) => BackupKeeps(before, runId, recovery, plan, home, logged);
        case Recover(plan) => RecoverKeeps(before, plan, home, logged);
        case GuardsChanged(_) =>
      }
    }
  }

  /** Where the tool may begin: no quiesce unfinished, a stable host, no plaintext of a finished run lying about. */
  predicate Settled(w: World) {
    !Unfinished(w) && w.host != Unstable && PlainIsNamed(w)
  }

  /**
   * After any number of attempts, each interrupted anywhere, a recover that completes leaves the host in the
   * state it was in at first, no captured plaintext on disk, and the intent complete.  On the way no host that
   * was inactive was started, and every capture ran with the host inactive and the operator lock held.
   */
  lemma CompletedRecoverRestoresTheHost(w: World, attempts: seq<Attempt>, plan: Plan)
    requires Settled(w)
    ensures var last := RecoverSpec(Run(w, attempts), plan);
            && (last.outcome == Running ==> last.world.host == w.host && last.world.plain == {} && !Unfinished(last.world))
            && |w.log| <= |last.world.log|
            && (forall k :: |w.log| <= k < |last.world.log| ==> LoggedOk(last.world.log[k], w.host))
  {
    RunKeeps(w, attempts, w.host, |w.log|);
    RecoverKeeps(Run(w, attempts), plan, w.host, |w.log|);
  }

  /** And with nothing going wrong during it, a recover completes unless a guard file changed since the quiesce. */
  lemma FaultlessRecoverCompletes(w: World, attempts: seq<Attempt>, plan: Plan)
    requires Settled(w) && forall step :: plan(step) == Fine
    ensures var now := Run(w, attempts);
            RecoverSpec(now, plan).outcome == Running <==> Unfinished(now) ==> now.intent.value.guards == now.guards
  {
    RunKeeps(w, attempts, w.host, |w.log|);
  }

  /** A host left stopped by an interrupted run is never recorded as previously inactive. */
  lemma RecordedStateIsTheFirstState(w: World, attempts: seq<Attempt>)
    requires Settled(w)
    ensures var now := Run(w, attempts);
            Unfinished(now) ==> now.intent.value.previouslyActive == (w.host == Active)
  {
    RunKeeps(w, attempts, w.host, |w.log|);
  }
}
