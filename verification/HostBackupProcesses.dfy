/**
 * Several processes of the backup tool on one machine.  Recovery and snapshot each run under the tool's locks, and
 * another process may come in between; the last step of a backup reads the intent and completes it under no lock.
 */
module HostBackupProcesses {
  import opened Basics
  import opened HostBackup
  import opened HostBackupSteps

  /** The machine, and the own intent that a finishing backup has read and not yet completed. */
  datatype Machine = Machine(world: World, read: map<nat, Intent>)

  /** One locked section of some process, a half of its unlocked last step, or somebody changing the guard files. */
  datatype Move =
    | Recovering(plan: Plan)
    | Snapshotting(runId: string, plan: Plan)
    | ReadingBack(process: nat, runId: string)
    | CleaningUp(process: nat, plan: Plan)
    | ChangingGuards(guards: string)

  function Moved(m: Machine, v: Move): Machine {
    match v
    case Recovering(plan) => m.(world := RecoverSpec(m.world, plan).world)
    case Snapshotting(runId, plan) => m.(world := SnapshotSpec(Point(m.world, Running), runId, plan).world)
    case ReadingBack(process, runId) =>
      var i := m.world.intent;
      if i.Some? && i.value.runId == runId && i.value.phase == Resumed then m.(read := m.read[process := i.value])
      else m.(read := m.read - {process})
    case CleaningUp(process, plan) =>
      if process !in m.read then m
      else Machine(CleanupSpec(Point(m.world, Running), m.read[process], true, plan).world, m.read - {process})
    case ChangingGuards(guards) => m.(world := m.world.(guards := guards))
  }

  function RunMoves(m: Machine, moves: seq<Move>): Machine
    decreases |moves|
  {
    if moves == [] then m else Moved(RunMoves(m, moves[..|moves| - 1]), moves[|moves| - 1])
  }

  ghost predicate ReadOk(m: Machine) {
    forall p :: p in m.read ==> m.read[p].phase == Resumed
  }

  // ----- one process alone -----

  /** The moves of one backup, as far as it gets. */
  function BackupMoves(w: World, runId: string, recovery: Plan, plan: Plan): seq<Move> {
    var recovered := RecoverSpec(w, recovery);
    if recovered.outcome != Running || plan(Prepare) != Fine then [Recovering(recovery)]
    else
      var shipped := SnapshotSpec(recovered, runId, plan);
      var body := Act(shipped, plan(Ship), shipped.world);
      if body.outcome == Crashed || plan(ReadOwnIntent) != Fine then [Recovering(recovery), Snapshotting(runId, plan)]
      else [Recovering(recovery), Snapshotting(runId, plan), ReadingBack(0, runId), CleaningUp(0, plan)]
  }

  lemma RunOneMove(m: Machine, moves: seq<Move>, v: Move)
    ensures RunMoves(m, moves + [v]) == Moved(RunMoves(m, moves), v)
  {
    assert (moves + [v])[..|moves|] == moves;
  }

  lemma RunTwoMoves(m: Machine, a: Move, b: Move)
    ensures RunMoves(m, [a]) == Moved(m, a) && RunMoves(m, [a, b]) == Moved(Moved(m, a), b)
  {
    RunOneMove(m, [], a);
    RunOneMove(m, [a], b);
    assert [] + [a] == [a] && [a] + [b] == [a, b];
  }

  lemma RunFourMoves(m: Machine, a: Move, b: Move, c: Move, d: Move)
    ensures RunMoves(m, [a, b, c, d]) == Moved(Moved(Moved(Moved(m, a), b), c), d)
  {
    RunTwoMoves(m, a, b);
    RunOneMove(m, [a, b], c);
    RunOneMove(m, [a, b, c], d);
    assert [a, b] + [c] == [a, b, c] && [a, b, c] + [d] == [a, b, c, d];
  }

  lemma FinishIsTwoMoves(body: Point, runId: string, plan: Plan)
    requires body.outcome != Crashed && plan(ReadOwnIntent) == Fine
    ensures Moved(Moved(Machine(body.world, map[]), ReadingBack(0, runId)), CleaningUp(0, plan)).world
            == FinallyCleanup(body, runId, plan).world
  {
  }

  lemma ShippingStays(shipped: Point, plan: Plan)
    ensures Act(shipped, plan(Ship), shipped.world).world == shipped.world
  {
  }

  lemma BackupStages(w: World, runId: string, recovery: Plan, plan: Plan)
    ensures var recovered := RecoverSpec(w, recovery);
            var shipped := SnapshotSpec(recovered, runId, plan);
            BackupSpec(w, runId, recovery, plan).world
            == if recovered.outcome != Running || plan(Prepare) != Fine then recovered.world
               else FinallyCleanup(Act(shipped, plan(Ship), shipped.world), runId, plan).world
  {
    var recovered := RecoverSpec(w, recovery);
    assert plan(Prepare) == Fine ==> Act(recovered, plan(Prepare), recovered.world) == recovered;
  }

  lemma RecoveredThenShipped(w: World, runId: string, recovery: Plan, plan: Plan)
    requires RecoverSpec(w, recovery).outcome == Running
    ensures RunMoves(Machine(w, map[]), [Recovering(recovery), Snapshotting(runId, plan)])
            == Machine(SnapshotSpec(RecoverSpec(w, recovery), runId, plan).world, map[])
  {
    RunTwoMoves(Machine(w, map[]), Recovering(recovery), Snapshotting(runId, plan));
    assert RecoverSpec(w, recovery) == Point(RecoverSpec(w, recovery).world, Running);
  }

  lemma CleanupCutShort(body: Point, runId: string, plan: Plan)
    requires body.outcome == Crashed || plan(ReadOwnIntent) != Fine
    ensures FinallyCleanup(body, runId, plan).world == body.world
  {
  }

  lemma WholeBackupIsItsMoves(w: World, runId: string, recovery: Plan, plan: Plan, body: Point)
    requires RecoverSpec(w, recovery).outcome == Running && body.world == SnapshotSpec(RecoverSpec(w, recovery), runId, plan).world
    requires body.outcome != Crashed && plan(ReadOwnIntent) == Fine
    ensures FinallyCleanup(body, runId, plan).world
            == RunMoves(Machine(w, map[]),
                        [Recovering(recovery), Snapshotting(runId, plan), ReadingBack(0, runId), CleaningUp(0, plan)]).world
  {
    RunTwoMoves(Machine(w, map[]), Recovering(recovery), Snapshotting(runId, plan));
    RunFourMoves(Machine(w, map[]), Recovering(recovery), Snapshotting(runId, plan), ReadingBack(0, runId), CleaningUp(0, plan));
    RecoveredThenShipped(w, runId, recovery, plan);
    FinishIsTwoMoves(body, runId, plan);
  }

  /** A backup on its own is its moves one after another. */
  lemma BackupIsItsMoves(w: World, runId: string, recovery: Plan, plan: Plan)
    ensures BackupSpec(w, runId, recovery, plan).world == RunMoves(Machine(w, map[]), BackupMoves(w, runId, recovery, plan)).world
  {
    var recovered := RecoverSpec(w, recovery);
    BackupStages(w, runId, recovery, plan);
    if recovered.outcome != Running || plan(Prepare) != Fine {
      RunTwoMoves(Machine(w, map[]), Recovering(recovery), Snapshotting(runId, plan));
    } else {
      var shipped := SnapshotSpec(recovered, runId, plan);
      var body := Act(shipped, plan(Ship), shipped.world);
      ShippingStays(shipped, plan);
      if body.outcome == Crashed || plan(ReadOwnIntent) != Fine {
        RecoveredThenShipped(w, runId, recovery, plan);
        CleanupCutShort(body, runId, plan);
      } else {
        WholeBackupIsItsMoves(w, runId, recovery, plan, body);
      }
    }
  }

  // ----- the host comes home -----

  /** The last step of a backup gets as far as writing "complete". */
  predicate MarksComplete(plan: Plan) {
    plan(RemoveRun(true)) == Fine && Effective(plan(WriteComplete(true)))
  }

  /** A backup completes the intent it read over a quiesce that another process has begun since. */
  predicate Overwrites(m: Machine, v: Move) {
    v.CleaningUp? && v.process in m.read && MarksComplete(v.plan) && Unfinished(m.world)
  }

  lemma SnapshotKeepsHome(w: World, runId: string, plan: Plan, home: HostState, logged: nat)
    requires AtHome(w, home, logged)
    ensures AtHome(SnapshotSpec(Point(w, Running), runId, plan).world, home, logged)
  {
    if w.intent.Some? {
      ResumeKeeps(Point(w, Running), w.intent.value, false, plan, home, logged);
      SnapshotResumesFirst(w, runId, plan);
      var earlier := ResumeSpec(Point(w, Running), w.intent.value, false, plan);
      if earlier.outcome == Running {
        SnapshotFromRest(earlier.world, runId, plan, home, logged);
      }
    } else {
      SnapshotFromRest(w, runId, plan, home, logged);
    }
  }

  lemma CleaningKeepsHome(w: World, i: Intent, plan: Plan, home: HostState, logged: nat)
    requires AtHome(w, home, logged) && i.phase == Resumed && (MarksComplete(plan) ==> !Unfinished(w))
    ensures AtHome(CleanupSpec(Point(w, Running), i, true, plan).world, home, logged)
  {
  }

  lemma MoveKeepsHome(m: Machine, v: Move, home: HostState, logged: nat)
    requires AtHome(m.world, home, logged) && ReadOk(m) && !Overwrites(m, v)
    ensures AtHome(Moved(m, v).world, home, logged) && ReadOk(Moved(m, v))
  {
    match v
    case Recovering(plan) => RecoverKeepsHome(m.world, plan, home, logged);
    case Snapshotting(runId, plan) => SnapshotKeepsHome(m.world, runId, plan, home, logged);
    case ReadingBack(_, _) =>
    case CleaningUp(process, plan) =>
      if process in m.read {
        CleaningKeepsHome(m.world, m.read[process], plan, home, logged);
      }
    case ChangingGuards(_) =>
  }

  ghost predicate NeverOverwrites(m: Machine, moves: seq<Move>) {
    forall i :: 0 <= i < |moves| ==> !Overwrites(RunMoves(m, moves[..i]), moves[i])
  }

  lemma {:induction false} MovesKeepHome(m: Machine, moves: seq<Move>, home: HostState, logged: nat)
    requires AtHome(m.world, home, logged) && ReadOk(m) && NeverOverwrites(m, moves)
    ensures AtHome(RunMoves(m, moves).world, home, logged) && ReadOk(RunMoves(m, moves))
    decreases |moves|
  {
    if moves != [] {
      var n := |moves| - 1;
      forall i | 0 <= i < n ensures !Overwrites(RunMoves(m, moves[..n][..i]), moves[..n][i]) {
        assert moves[..n][..i] == moves[..i];
      }
      MovesKeepHome(m, moves[..n], home, logged);
      MoveKeepsHome(RunMoves(m, moves[..n]), moves[n], home, logged);
    }
  }

  /**
   * However the sections of any number of processes follow one another, if no backup completes its intent over
   * another's quiesce, a recover that completes leaves the host in the state it was in at first; no host that was
   * inactive was started, and every capture ran with the host inactive and the operator lock held.
   */
  lemma HostComesHome(w: World, moves: seq<Move>, plan: Plan)
    requires Settled(w) && NeverOverwrites(Machine(w, map[]), moves)
    ensures var last := RecoverSpec(RunMoves(Machine(w, map[]), moves).world, plan);
            && (last.outcome == Running ==> last.world.host == w.host && !Unfinished(last.world))
            && |w.log| <= |last.world.log|
            && (forall k :: |w.log| <= k < |last.world.log| ==> LoggedOk(last.world.log[k], w.host))
  {
    MovesKeepHome(Machine(w, map[]), moves, w.host, |w.log|);
    RecoverKeepsHome(RunMoves(Machine(w, map[]), moves).world, plan, w.host, |w.log|);
  }

  function AllFine(): Plan {
    (step: Step) => Fine
  }

  lemma CompleteStaysPut(w: World, plan: Plan)
    requires w.intent.Some? && w.intent.value.phase == Complete
    ensures RecoverSpec(w, plan).world.host == w.host
    ensures RecoverSpec(w, AllFine()).outcome == Running
  {
  }

  ghost predicate RecoversTo(w: World, home: HostState) {
    forall plan :: RecoverSpec(w, plan).outcome == Running ==> RecoverSpec(w, plan).world.host == home
  }

  lemma OverwriteLeavesHost(m: Machine, v: Move)
    requires Overwrites(m, v) && ReadOk(m)
    ensures var w := Moved(m, v).world; w.host == m.world.host && w.intent.Some? && w.intent.value.phase == Complete
  {
  }

  /** After such a completion the host is brought home exactly when the other process had not stopped it yet. */
  lemma OverwriteDecides(m: Machine, v: Move, home: HostState)
    requires Overwrites(m, v) && ReadOk(m)
    ensures RecoversTo(Moved(m, v).world, home) <==> m.world.host == home
  {
    var w := Moved(m, v).world;
    OverwriteLeavesHost(m, v);
    CompleteStaysPut(w, AllFine());
    if m.world.host == home {
      forall plan | RecoverSpec(w, plan).outcome == Running ensures RecoverSpec(w, plan).world.host == home {
        CompleteStaysPut(w, plan);
      }
    } else {
      assert !(RecoverSpec(w, AllFine()).outcome == Running ==> RecoverSpec(w, AllFine()).world.host == home);
    }
  }

  // ----- the plaintext goes -----

  /** The snapshot gets as far as writing its own intent. */
  predicate WritesIntent(w: World, plan: Plan) {
    && (w.intent.Some? ==> ResumeSpec(Point(w, Running), w.intent.value, false, plan).outcome == Running)
    && plan(StableCheck) == Fine && Effective(plan(WriteIntent))
  }

  /** An intent is written over the one that names somebody's captured plaintext. */
  predicate Disowns(m: Machine, v: Move) {
    match v
    case Snapshotting(runId, plan) => WritesIntent(m.world, plan) && exists run :: run in m.world.plain && run != runId
    case CleaningUp(process, plan) =>
      process in m.read && MarksComplete(plan) && exists run :: run in m.world.plain && run != m.read[process].runId
    case _ => false
  }

  lemma SnapshotNames(w: World, runId: string, plan: Plan, home: HostState, logged: nat)
    requires AtHome(w, home, logged) && PlainIsNamed(w)
    ensures PlainIsNamed(SnapshotSpec(Point(w, Running), runId, plan).world)
            <==> !(WritesIntent(w, plan) && exists run :: run in w.plain && run != runId)
  {
    if w.intent.Some? {
      ResumeKeeps(Point(w, Running), w.intent.value, false, plan, home, logged);
      SnapshotResumesFirst(w, runId, plan);
      var earlier := ResumeSpec(Point(w, Running), w.intent.value, false, plan);
      if earlier.outcome == Running {
        SnapshotFromRest(earlier.world, runId, plan, home, logged);
      }
    } else {
      SnapshotFromRest(w, runId, plan, home, logged);
    }
  }

  lemma CleaningNames(w: World, i: Intent, plan: Plan)
    requires PlainIsNamed(w) && i.phase == Resumed
    ensures PlainIsNamed(CleanupSpec(Point(w, Running), i, true, plan).world)
            <==> !(MarksComplete(plan) && exists run :: run in w.plain && run != i.runId)
  {
    if MarksComplete(plan) {
      var r := CleanupSpec(Point(w, Running), i, true, plan).world;
      assert r.plain == w.plain - {i.runId};
      if exists run :: run in w.plain && run != i.runId {
        var run :| run in w.plain && run != i.runId;
        assert run in r.plain;
      }
    }
  }

  /** Captured plaintext stays named by an uncompleted intent exactly until such a write. */
  lemma NamedExactlyUnlessDisowned(m: Machine, v: Move, home: HostState, logged: nat)
    requires AtHome(m.world, home, logged) && PlainIsNamed(m.world) && ReadOk(m)
    ensures PlainIsNamed(Moved(m, v).world) <==> !Disowns(m, v)
  {
    match v
    case Recovering(plan) => RecoverKeeps(m.world, plan, home, logged);
    case Snapshotting(runId, plan) => SnapshotNames(m.world, runId, plan, home, logged);
    case ReadingBack(_, _) =>
    case CleaningUp(process, plan) =>
      if process in m.read {
        CleaningNames(m.world, m.read[process], plan);
      }
    case ChangingGuards(_) =>
  }

  ghost predicate NeverDisowns(m: Machine, moves: seq<Move>) {
    forall i :: 0 <= i < |moves| ==> !Disowns(RunMoves(m, moves[..i]), moves[i])
  }

  lemma {:induction false} PlaintextStaysNamed(m: Machine, moves: seq<Move>, home: HostState, logged: nat)
    requires AtHome(m.world, home, logged) && PlainIsNamed(m.world) && ReadOk(m)
    requires NeverOverwrites(m, moves) && NeverDisowns(m, moves)
    ensures AtHome(RunMoves(m, moves).world, home, logged) && PlainIsNamed(RunMoves(m, moves).world) && ReadOk(RunMoves(m, moves))
    decreases |moves|
  {
    if moves != [] {
      var n := |moves| - 1;
      forall i | 0 <= i < n
        ensures !Overwrites(RunMoves(m, moves[..n][..i]), moves[..n][i]) && !Disowns(RunMoves(m, moves[..n][..i]), moves[..n][i])
      {
        assert moves[..n][..i] == moves[..i];
      }
      PlaintextStaysNamed(m, moves[..n], home, logged);
      NamedExactlyUnlessDisowned(RunMoves(m, moves[..n]), moves[n], home, logged);
      MoveKeepsHome(RunMoves(m, moves[..n]), moves[n], home, logged);
    }
  }

  /** Then a recover that completes leaves no captured plaintext either. */
  lemma NoPlaintextIsLeft(w: World, moves: seq<Move>, plan: Plan)
    requires Settled(w) && NeverOverwrites(Machine(w, map[]), moves) && NeverDisowns(Machine(w, map[]), moves)
    ensures var last := RecoverSpec(RunMoves(Machine(w, map[]), moves).world, plan);
            last.outcome == Running ==> last.world.plain == {}
  {
    PlaintextStaysNamed(Machine(w, map[]), moves, w.host, |w.log|);
    RecoverKeeps(RunMoves(Machine(w, map[]), moves).world, plan, w.host, |w.log|);
  }

  /** Nothing that is still to come knows this run: not the intent, and no backup about to finish. */
  ghost predicate Orphaned(m: Machine, run: string) {
    && run in m.world.plain && (m.world.intent.Some? ==> m.world.intent.value.runId != run)
    && forall p :: p in m.read ==> m.read[p].runId != run
  }

  lemma ResumeLeavesPlain(p: Point, i: Intent, own: bool, plan: Plan)
    ensures var r := ResumeSpec(p, i, own, plan).world;
            r.plain == p.world.plain && (r.intent == p.world.intent || r.intent == Some(i.(phase := Resumed)))
  {
  }

  lemma CapturingLeavesOthers(written: Point, i: Intent, plan: Plan, run: string)
    requires written.world.intent == Some(i) && run in written.world.plain && run != i.runId
    ensures var r := FinallyResume(QuiesceSpec(written, i, plan), i, plan).world;
            run in r.plain && r.intent.Some? && r.intent.value.runId == i.runId
  {
    QuiesceLeaves(written, i, plan);
    ResumeLeavesPlain(Point(QuiesceSpec(written, i, plan).world, Running), i, true, plan);
  }

  lemma SnapshotAtRest(w: World, runId: string, plan: Plan)
    requires !Unfinished(w)
    ensures var i := NewIntent(w, runId);
            var stable := Check(Point(w, Running), plan(StableCheck), w.host != Unstable);
            var written := Act(stable, plan(WriteIntent), w.(intent := Some(i)));
            SnapshotSpec(Point(w, Running), runId, plan)
            == if written.outcome != Running then written else FinallyResume(QuiesceSpec(written, i, plan), i, plan)
  {
    assert w.intent.Some? ==> ResumeSpec(Point(w, Running), w.intent.value, false, plan) == Point(w, Running);
  }

  /** With nothing to resume, a snapshot gets nowhere, writes its intent, or goes through with it. */
  lemma SnapshotStages(w: World, runId: string, plan: Plan)
    requires !Unfinished(w)
    ensures var i := NewIntent(w, runId);
            var claimed := w.(intent := Some(i));
            var r := SnapshotSpec(Point(w, Running), runId, plan).world;
            r == w || r == claimed || r == FinallyResume(QuiesceSpec(Point(claimed, Running), i, plan), i, plan).world
  {
    SnapshotAtRest(w, runId, plan);
    var claimed := w.(intent := Some(NewIntent(w, runId)));
    var stable := Check(Point(w, Running), plan(StableCheck), w.host != Unstable);
    var written := Act(stable, plan(WriteIntent), claimed);
    assert written.world == w || written.world == claimed;
    if written.outcome == Running {
      assert written == Point(claimed, Running);
    }
  }

  lemma RestLeavesOthers(w: World, runId: string, plan: Plan, run: string)
    requires !Unfinished(w) && run in w.plain && run != runId && (w.intent.Some? ==> w.intent.value.runId != run)
    ensures var r := SnapshotSpec(Point(w, Running), runId, plan).world;
            run in r.plain && (r.intent.Some? ==> r.intent.value.runId != run)
  {
    SnapshotStages(w, runId, plan);
    var i := NewIntent(w, runId);
    CapturingLeavesOthers(Point(w.(intent := Some(i)), Running), i, plan, run);
  }

  lemma ResumedIsAtRest(w: World, plan: Plan)
    requires w.intent.Some?
    ensures var earlier := ResumeSpec(Point(w, Running), w.intent.value, false, plan);
            earlier.outcome == Running ==> !Unfinished(earlier.world)
  {
  }

  lemma SnapshotLeavesOthers(w: World, runId: string, plan: Plan, run: string)
    requires run in w.plain && run != runId && (w.intent.Some? ==> w.intent.value.runId != run)
    ensures var r := SnapshotSpec(Point(w, Running), runId, plan).world;
            run in r.plain && (r.intent.Some? ==> r.intent.value.runId != run)
  {
    if w.intent.Some? {
      var earlier := ResumeSpec(Point(w, Running), w.intent.value, false, plan);
      SnapshotResumesFirst(w, runId, plan);
      ResumeLeavesPlain(Point(w, Running), w.intent.value, false, plan);
      if earlier.outcome == Running {
        ResumedIsAtRest(w, plan);
        RestLeavesOthers(earlier.world, runId, plan, run);
      }
    } else {
      RestLeavesOthers(w, runId, plan, run);
    }
  }

  lemma RecoverLeavesOthers(w: World, plan: Plan, run: string)
    requires run in w.plain && (w.intent.Some? ==> w.intent.value.runId != run)
    ensures var r := RecoverSpec(w, plan).world; run in r.plain && (r.intent.Some? ==> r.intent.value.runId != run)
  {
    if w.intent.Some? {
      ResumeLeavesPlain(Act(Act(Point(w, Running), plan(TakeLocks), w), plan(ReadIntent), w), w.intent.value, false, plan);
    }
  }

  lemma MoveLeavesOrphans(m: Machine, v: Move, run: string)
    requires Orphaned(m, run) && !(v.Snapshotting? && v.runId == run)
    ensures Orphaned(Moved(m, v), run)
  {
    match v
    case Recovering(plan) => RecoverLeavesOthers(m.world, plan, run);
    case Snapshotting(runId, plan) => SnapshotLeavesOthers(m.world, runId, plan, run);
    case ReadingBack(_, _) =>
    case CleaningUp(_, _) =>
    case ChangingGuards(_) =>
  }

  /** Disowned plaintext is never removed again: run ids are not reused, and recovery looks only at the intent. */
  lemma {:induction false} OrphansStay(m: Machine, moves: seq<Move>, run: string)
    requires Orphaned(m, run) && forall i :: 0 <= i < |moves| ==> !(moves[i].Snapshotting? && moves[i].runId == run)
    ensures Orphaned(RunMoves(m, moves), run)
    decreases |moves|
  {
    if moves != [] {
      OrphansStay(m, moves[..|moves| - 1], run);
      MoveLeavesOrphans(RunMoves(m, moves[..|moves| - 1]), moves[|moves| - 1], run);
    }
  }

  // ----- two processes -----

  /** A machine whose host runs. */
  const RUNNING := World(None, Active, "", false, {}, [])

  function CrashAfterStop(): Plan {
    (step: Step) => if step == StopHost then CrashAfter else Fine
  }

  const RESUMED := Intent("a", true, "", Resumed)

  /** After the first process has taken its snapshot. */
  const CAPTURED := World(Some(RESUMED), Active, "", false, {"a"}, [Stopped, Captured(Inactive, true), Started])

  lemma FirstSnapshot()
    ensures SnapshotSpec(Point(RUNNING, Running), "a", AllFine()).world == CAPTURED
  {
    var i := NewIntent(RUNNING, "a");
    var w := RUNNING.(intent := Some(i));
    var q := QuiesceSpec(Point(w, Running), i, AllFine());
    assert q == Point(w.(host := Inactive, plain := {"a"}, log := [Stopped, Captured(Inactive, true)]), Running);
  }

  lemma SecondSnapshotCrashes()
    ensures var w := SnapshotSpec(Point(CAPTURED, Running), "b", CrashAfterStop()).world;
            w.host == Inactive && w.intent == Some(Intent("b", true, "", Quiescing)) && w.plain == {"a"}
  {
    var i := NewIntent(CAPTURED, "b");
    var q := QuiesceSpec(Point(CAPTURED.(intent := Some(i)), Running), i, CrashAfterStop());
    assert q.outcome == Crashed && q.world.host == Inactive;
  }

  function StrandingMoves(): seq<Move> {
    [Snapshotting("a", AllFine()), ReadingBack(0, "a"), Snapshotting("b", CrashAfterStop()), CleaningUp(0, AllFine())]
  }

  lemma ReadsBack()
    ensures Moved(Machine(CAPTURED, map[]), ReadingBack(0, "a")) == Machine(CAPTURED, map[0 := RESUMED])
  {
  }

  lemma CompletedOverQuiesce(w: World)
    requires Unfinished(w) && w.host == Inactive
    ensures var last := RecoverSpec(Moved(Machine(w, map[0 := RESUMED]), CleaningUp(0, AllFine())).world, AllFine());
            last.outcome == Running && last.world.host == Inactive
  {
    var m := Machine(w, map[0 := RESUMED]);
    OverwriteLeavesHost(m, CleaningUp(0, AllFine()));
    CompleteStaysPut(Moved(m, CleaningUp(0, AllFine())).world, AllFine());
  }

  /**
   * A backup that has read its own intent completes it after a second process has stopped the host and crashed: the
   * host stays stopped, and a recover that completes does not start it.
   */
  lemma HostStaysStopped()
    ensures Settled(RUNNING) && RUNNING.host == Active
    ensures var last := RecoverSpec(RunMoves(Machine(RUNNING, map[]), StrandingMoves()).world, AllFine());
            last.outcome == Running && last.world.host == Inactive
  {
    FirstSnapshot();
    ReadsBack();
    SecondSnapshotCrashes();
    RunFourMoves(Machine(RUNNING, map[]), Snapshotting("a", AllFine()), ReadingBack(0, "a"), Snapshotting("b", CrashAfterStop()),
                 CleaningUp(0, AllFine()));
    CompletedOverQuiesce(SnapshotSpec(Point(CAPTURED, Running), "b", CrashAfterStop()).world);
  }

  /** A second snapshot while the first process ships its own disowns the first one's plaintext. */
  lemma SecondSnapshotDisowns()
    ensures var m := RunMoves(Machine(RUNNING, map[]), [Snapshotting("a", AllFine()), Snapshotting("b", AllFine())]);
            Orphaned(m, "a")
  {
    FirstSnapshot();
    RunTwoMoves(Machine(RUNNING, map[]), Snapshotting("a", AllFine()), Snapshotting("b", AllFine()));
    SnapshotFromRest(CAPTURED, "b", AllFine(), Active, 0);
  }
}
