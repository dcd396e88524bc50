/**
 The converse of the pause invariant: no action is asked to pause unless the vehicle is paused. `stopTraverse`
 breaks it, since it ends the pause of the vehicle without unpausing the actions.
 */
module PauseSafety {
  import opened Wrappers
  import opened Actions
  import opened Geometry
  import opened ActionStateMachine
  import opened VirtualAgv
  import opened TickRound
  import opened AgvSafety

  predicate PauseIsMutual(a: Agv) {
    forall i :: 0 <= i < |a.machines| && a.machines[i].state.pause ==> a.vehicle.isPaused
  }

  /** Only an action that has ended, and so has left the list, ends the pause. */
  predicate ResumesAtEnd(setup: Setup) {
    forall s :: LinkedEffect(setup.def, s) == StopPause ==> Terminal(s)
  }

  predicate AllResumeAtEnd(a: Agv) {
    forall i :: 0 <= i < |a.machines| ==> ResumesAtEnd(a.machines[i].setup)
  }

  predicate ResumingCommand(c: Command) {
    c.ExecuteAction? ==> ResumesAtEnd(c.setup)
  }

  lemma BuiltInsResumeAtEnd(action: Action, scope: Scope)
    requires BuiltIn(action, scope).Some?
    ensures ResumesAtEnd(Setup(action, scope, BuiltIn(action, scope).value))
  {
  }

  /** Nothing is listed but startPause and stopPause actions that have not been asked to pause themselves. */
  predicate NothingHeld(a: Agv) {
    forall i :: 0 <= i < |a.machines| ==> ControlsPause(a.machines[i].setup) && !a.machines[i].state.pause
  }

  /** When the controller can safely command `stopTraverse`. */
  predicate MayStopTraverse(a: Agv) {
    !a.vehicle.isPaused || NothingHeld(a)
  }

  /** In a safe and mutual state, `stopTraverse` keeps the pause mutual exactly if nothing is held by it. */
  lemma StopTraverseKeepsMutual(o: Options, a: Agv)
    requires Safe(o, a) && PauseIsMutual(a)
    ensures PauseIsMutual(Obey(a, StopTraverse)) <==> MayStopTraverse(a)
  {
    var a' := Obey(a, StopTraverse);
    if PauseIsMutual(a') && a.vehicle.isPaused {
      forall i | 0 <= i < |a.machines| ensures ControlsPause(a.machines[i].setup) && !a.machines[i].state.pause {
        assert a'.machines[i] == a.machines[i];
      }
    }
  }

  /* Moves */

  lemma TickedAloneMutual(o: Options, a: Agv, i: nat, dt: Interval)
    requires Safe(o, a) && PauseIsMutual(a) && AllResumeAtEnd(a) && i < |a.machines|
    ensures PauseIsMutual(TickedAlone(a, i, dt)) && AllResumeAtEnd(TickedAlone(a, i, dt))
  {
    TickKeepsPause(a.machines[i], dt);
  }

  /** The machine that performs a terminal effect is no longer listed. */
  lemma EndedHasLeft(o: Options, a: Agv, i: nat, dt: Interval)
    requires Safe(o, a) && i < |a.machines| && EndsWith(OnTick(a.machines[i].setup, a.machines[i].state, dt).1)
    ensures forall k :: 0 <= k < |TickedAlone(a, i, dt).machines| ==>
              TickedAlone(a, i, dt).machines[k].serial != a.machines[i].serial
  {
  }

  lemma PerformMutual(a: Agv, self: nat, effect: Effect)
    requires PauseIsMutual(a) && AllResumeAtEnd(a)
    requires effect == StopPause ==> forall i :: 0 <= i < |a.machines| ==> a.machines[i].serial != self
    ensures PauseIsMutual(Perform(a, self, effect)) && AllResumeAtEnd(Perform(a, self, effect))
  {
  }

  lemma TickMachineMutual(o: Options, a: Agv, i: nat, dt: Interval)
    requires Safe(o, a) && PauseIsMutual(a) && AllResumeAtEnd(a)
    ensures PauseIsMutual(TickMachine(a, i, dt).0) && AllResumeAtEnd(TickMachine(a, i, dt).0)
  {
    if i < |a.machines| {
      hide OnTick, Perform, TickedAlone, Safe, PauseIsMutual;
      TickedAloneMutual(o, a, i, dt);
      var m := a.machines[i];
      if EffectOf(a, i, dt) == StopPause {
        assert ResumesAtEnd(m.setup);
        EndedHasLeft(o, a, i, dt);
      }
      PerformMutual(TickedAlone(a, i, dt), m.serial, EffectOf(a, i, dt));
    }
  }

  lemma ObeyMutual(o: Options, a: Agv, c: Command)
    requires Safe(o, a) && PauseIsMutual(a) && AllResumeAtEnd(a) && ResumingCommand(c) && !c.StopTraverse?
    ensures PauseIsMutual(Obey(a, c)) && AllResumeAtEnd(Obey(a, c))
  {
    match c
    case FinishEdgeAction(actionId, scope) =>
      var i := Find(a.machines, actionId, scope);
      if i < |a.machines| {
        RequestKeeps(a.machines[i], Terminate);
      }
    case CancelAction(actionId, scope) =>
      var i := Find(a.machines, actionId, scope);
      if i < |a.machines| {
        RequestKeeps(a.machines[i], Cancel);
      }
    case _ =>
  }

  lemma MoveMutual(o: Options, a: Agv, m: Move)
    requires Safe(o, a) && PauseIsMutual(a) && AllResumeAtEnd(a) && (m.Commanded? ==> ResumingCommand(m.command))
    ensures AllResumeAtEnd(Make(o, a, m))
    ensures PauseIsMutual(Make(o, a, m)) <==> (m == Commanded(StopTraverse) ==> MayStopTraverse(a))
  {
    match m
    case Commanded(c) =>
      if c.StopTraverse? {
        StopTraverseKeepsMutual(o, a);
      } else {
        ObeyMutual(o, a, c);
      }
    case Ticked(i, dt) => TickMachineMutual(o, a, i, dt);
    case _ =>
  }

  /* Runs */

  /** `stopTraverse` is commanded only when nothing is held by a pause. */
  predicate Careful(o: Options, a: Agv, moves: seq<Move>)
    decreases |moves|
  {
    moves != [] ==>
      && (moves[0] == Commanded(StopTraverse) ==> MayStopTraverse(a))
      && Careful(o, Make(o, a, moves[0]), moves[1..])
  }

  /** In every state of the run the pause is mutual. */
  predicate MutualThroughout(o: Options, a: Agv, moves: seq<Move>)
    decreases |moves|
  {
    PauseIsMutual(a) && (moves != [] ==> MutualThroughout(o, Make(o, a, moves[0]), moves[1..]))
  }

  predicate ResumingMoves(moves: seq<Move>) {
    forall m :: m in moves && m.Commanded? ==> ResumingCommand(m.command)
  }

  lemma SafeMove(o: Options, a: Agv, m: Move)
    requires Safe(o, a) && Euclidean(o.plane) && (m.Commanded? ==> ConventionalCommand(m.command))
    ensures Safe(o, Make(o, a, m))
  {
    assert Play(o, a, [m]) == Make(o, a, m) by {
      PlayOne(o, a, m, []);
      assert [m] + [] == [m];
    }
    RunsAreSafe(o, a, [m]);
  }

  /** Over every run: the pause is mutual in all states exactly if `stopTraverse` is commanded with care. */
  lemma {:induction false} MutualExactlyIfCareful(o: Options, a: Agv, moves: seq<Move>)
    requires Safe(o, a) && PauseIsMutual(a) && AllResumeAtEnd(a)
    requires Euclidean(o.plane) && ConventionalMoves(moves) && ResumingMoves(moves)
    ensures MutualThroughout(o, a, moves) <==> Careful(o, a, moves)
    decreases |moves|
  {
    hide Safe, PauseIsMutual, AllResumeAtEnd, Make, MayStopTraverse;
    if moves != [] {
      assert moves[0] in moves;
      MoveMutual(o, a, moves[0]);
      SafeMove(o, a, moves[0]);
      if moves[0] == Commanded(StopTraverse) ==> MayStopTraverse(a) {
        MutualExactlyIfCareful(o, Make(o, a, moves[0]), moves[1..]);
      }
    }
  }

  /** In particular from the state that `attach` creates. */
  lemma AttachedMutualExactlyIfCareful(o: Options, x: real, y: real, charge: real, moves: seq<Move>)
    requires Euclidean(o.plane) && 0.0 <= charge <= 100.0 && ConventionalMoves(moves) && ResumingMoves(moves)
    ensures MutualThroughout(o, Attached(o, x, y, charge), moves) <==> Careful(o, Attached(o, x, y, charge), moves)
  {
    MutualExactlyIfCareful(o, Attached(o, x, y, charge), moves);
  }

  /* What becomes of a stranded action */

  /** A paused action that has not been asked to end. */
  predicate Stuck(m: Machine) {
    m.state.pause && m.state.status == Some(Paused) && m.state.cancel == NotAsked && m.state.terminate == NotAsked
  }

  /** The move asks the action to end. */
  predicate AsksToEnd(m: Machine, move: Move) {
    move.Commanded? &&
    match move.command
    case FinishEdgeAction(actionId, scope) => actionId == m.setup.action.actionId && scope == m.setup.scope
    case CancelAction(actionId, scope) => actionId == m.setup.action.actionId && scope == m.setup.scope
    case _ => false
  }

  /** No startPause takes effect, and the action is not asked to end. */
  predicate LeavesStuck(o: Options, a: Agv, moves: seq<Move>, m: Machine)
    decreases |moves|
  {
    moves != [] ==>
      && (moves[0].Ticked? ==> EffectOf(a, moves[0].index, moves[0].dt) != StartPause)
      && !AsksToEnd(m, moves[0])
      && LeavesStuck(o, Make(o, a, moves[0]), moves[1..], m)
  }

  lemma StuckTick(a: Agv, i: nat, dt: Interval, m: Machine)
    requires m in a.machines && Stuck(m) && !a.vehicle.isPaused && EffectOf(a, i, dt) != StartPause
    ensures m in TickMachine(a, i, dt).0.machines && !TickMachine(a, i, dt).0.vehicle.isPaused
  {
    hide LinkedEffect;
    if i < |a.machines| {
      var j :| 0 <= j < |a.machines| && a.machines[j] == m;
      var alone := TickedAlone(a, i, dt);
      if a.machines[i] == m {
        assert alone.machines[i] == m;
      } else if EndsWith(OnTick(a.machines[i].setup, a.machines[i].state, dt).1) {
        assert alone.machines[if i < j then j - 1 else j] == m;
      } else {
        assert alone.machines[j] == m;
      }
    }
  }

  lemma StuckMove(o: Options, a: Agv, move: Move, m: Machine)
    requires m in a.machines && Stuck(m) && !a.vehicle.isPaused && !AsksToEnd(m, move)
    requires move.Ticked? ==> EffectOf(a, move.index, move.dt) != StartPause
    ensures m in Make(o, a, move).machines && !Make(o, a, move).vehicle.isPaused
  {
    match move
    case Ticked(i, dt) => StuckTick(a, i, dt, m);
    case Commanded(FinishEdgeAction(actionId, scope)) => StuckAsk(a, actionId, scope, Terminate, m);
    case Commanded(CancelAction(actionId, scope)) => StuckAsk(a, actionId, scope, Cancel, m);
    case _ =>
  }

  lemma StuckAsk(a: Agv, actionId: string, scope: Scope, e: Event, m: Machine)
    requires m in a.machines && !(actionId == m.setup.action.actionId && scope == m.setup.scope)
    ensures m in Ask(a, actionId, scope, e).machines && Ask(a, actionId, scope, e).vehicle == a.vehicle
  {
    var i := Find(a.machines, actionId, scope);
    if i < |a.machines| {
      var j :| 0 <= j < |a.machines| && a.machines[j] == m;
      assert Ask(a, actionId, scope, e).machines[j] == m;
    }
  }

  /**
   Without another startPause no stopPause can be executed: a paused action on an unpaused vehicle stays as it
   is, whatever else happens, until it is asked to end.
   */
  lemma {:induction false} StrandedActionStays(o: Options, a: Agv, moves: seq<Move>, m: Machine)
    requires m in a.machines && Stuck(m) && !a.vehicle.isPaused && LeavesStuck(o, a, moves, m)
    ensures m in Play(o, a, moves).machines && !Play(o, a, moves).vehicle.isPaused
    decreases |moves|
  {
    if moves != [] {
      StuckMove(o, a, moves[0], m);
      StrandedActionStays(o, Make(o, a, moves[0]), moves[1..], m);
    }
  }

  /* Such a run */

  /** An instant action without parameters. */
  function Instant(actionType: string): Setup
    requires BuiltIn(Action("id", actionType, []), InstantScope).Some?
  {
    var action := Action("id", actionType, []);
    Setup(action, InstantScope, BuiltIn(action, InstantScope).value)
  }

  const NOOP := Instant("noop")
  const START_PAUSE := Instant("startPause")

  /** A noop runs, the vehicle is paused, the noop follows, and the traversal is stopped. */
  const STRANDING: seq<Move> :=
    [Commanded(ExecuteAction(NOOP, false, false)), Ticked(0, 0.2), Commanded(ExecuteAction(START_PAUSE, true, false)),
     Ticked(1, 0.2), Ticked(0, 0.2), Commanded(StopTraverse)]

  const STRANDED :=
    Machine(0, NOOP, Fresh(true).(status := Some(Paused), statusOnPause := Some(Running)))

  lemma PlayLast(o: Options, a: Agv, moves: seq<Move>, m: Move)
    ensures Play(o, a, moves + [m]) == Make(o, Play(o, a, moves), m)
  {
    PlayConcat(o, a, moves, [m]);
    PlayOne(o, Play(o, a, moves), m, []);
    assert [m] + [] == [m];
  }

  /** The run leaves the noop paused on a vehicle that is not, from where it goes on for ever. */
  lemma StopTraverseStrands(o: Options, x: real, y: real, charge: real, moves: seq<Move>)
    requires LeavesStuck(o, Play(o, Attached(o, x, y, charge), STRANDING), moves, STRANDED)
    ensures Play(o, Attached(o, x, y, charge), STRANDING).machines == [STRANDED]
    ensures var a := Play(o, Attached(o, x, y, charge), STRANDING + moves);
            STRANDED in a.machines && !a.vehicle.isPaused && !PauseIsMutual(a)
  {
    StrandingRun(o, Attached(o, x, y, charge));
    var a := Play(o, Attached(o, x, y, charge), STRANDING);
    StrandedActionStays(o, a, moves, STRANDED);
    PlayConcat(o, Attached(o, x, y, charge), STRANDING, moves);
    var a' := Play(o, a, moves);
    var i :| 0 <= i < |a'.machines| && a'.machines[i] == STRANDED;
  }

  const RUNNING := Fresh(false).(status := Some(Running))

  lemma NoopExecuted(o: Options, a: Agv)
    requires a.machines == [] && a.nextSerial == 0 && !a.vehicle.isPaused
    ensures var a' := Make(o, a, STRANDING[0]);
            a'.machines == [Machine(0, NOOP, Fresh(false))] && a'.nextSerial == 1 && !a'.vehicle.isPaused
  {
  }

  lemma NoopRuns(o: Options, a: Agv)
    requires a.machines == [Machine(0, NOOP, Fresh(false))] && a.nextSerial == 1 && !a.vehicle.isPaused
    ensures var a' := Make(o, a, STRANDING[1]);
            a'.machines == [Machine(0, NOOP, RUNNING)] && a'.nextSerial == 1 && !a'.vehicle.isPaused
  {
  }

  lemma StartPauseExecuted(o: Options, a: Agv)
    requires a.machines == [Machine(0, NOOP, RUNNING)] && a.nextSerial == 1 && !a.vehicle.isPaused
    ensures var a' := Make(o, a, STRANDING[2]);
            && a'.machines == [Machine(0, NOOP, RUNNING), Machine(1, START_PAUSE, Fresh(false))]
            && !a'.vehicle.isPaused
  {
  }

  lemma PauseStarts(o: Options, a: Agv)
    requires a.machines == [Machine(0, NOOP, RUNNING), Machine(1, START_PAUSE, Fresh(false))]
    requires !a.vehicle.isPaused
    ensures var a' := Make(o, a, STRANDING[3]);
            a'.machines == [Machine(0, NOOP, RUNNING.(pause := true))] && a'.vehicle.isPaused
  {
    assert EffectOf(a, 1, 0.2) == StartPause;
    var alone := TickedAlone(a, 1, 0.2);
    assert alone.machines == [Machine(0, NOOP, RUNNING)];
  }

  lemma NoopPauses(o: Options, a: Agv)
    requires a.machines == [Machine(0, NOOP, RUNNING.(pause := true))] && a.vehicle.isPaused
    ensures var a' := Make(o, a, STRANDING[4]); a'.machines == [STRANDED] && a'.vehicle.isPaused
  {
  }

  lemma StrandingRun(o: Options, a: Agv)
    requires a.machines == [] && a.nextSerial == 0 && !a.vehicle.isPaused
    ensures Play(o, a, STRANDING).machines == [STRANDED] && !Play(o, a, STRANDING).vehicle.isPaused
  {
    hide TickMachine, Execute, NOOP, START_PAUSE, STRANDED;
    PlaySix(o, a, STRANDING);
    NoopExecuted(o, a);
    var a1 := Make(o, a, STRANDING[0]);
    NoopRuns(o, a1);
    var a2 := Make(o, a1, STRANDING[1]);
    StartPauseExecuted(o, a2);
    var a3 := Make(o, a2, STRANDING[2]);
    PauseStarts(o, a3);
    var a4 := Make(o, a3, STRANDING[3]);
    NoopPauses(o, a4);
  }

  lemma PlaySix(o: Options, a: Agv, m: seq<Move>)
    requires |m| == 6
    ensures Play(o, a, m) ==
            Make(o, Make(o, Make(o, Make(o, Make(o, Make(o, a, m[0]), m[1]), m[2]), m[3]), m[4]), m[5])
  {
    hide Make;
    PlayLast(o, a, [], m[0]);
    assert [] + [m[0]] == [m[0]];
    PlayLast(o, a, [m[0]], m[1]);
    assert [m[0]] + [m[1]] == m[..2];
    PlayLast(o, a, m[..2], m[2]);
    assert m[..2] + [m[2]] == m[..3];
    PlayLast(o, a, m[..3], m[3]);
    assert m[..3] + [m[3]] == m[..4];
    PlayLast(o, a, m[..4], m[4]);
    assert m[..4] + [m[4]] == m[..5];
    PlayLast(o, a, m[..5], m[5]);
    assert m[..5] + [m[5]] == m;
  }
}
