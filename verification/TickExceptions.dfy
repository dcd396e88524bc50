/** When a tick of the virtual AGV is cut short by an exception, and what that does. */
module TickExceptions {
  import opened Wrappers
  import opened Actions
  import opened ActionStateMachine
  import opened VirtualAgv
  import opened TickRound
  import opened TickFairness

  /** A machine whose definition has all its scope demands, in a state that its definition covers. */
  predicate Steady(m: Machine) {
    && SoundFor(m.setup.def, m.setup.scope)
    && (m.state.status.Some? && m.state.status.value in {Initializing, Running} ==>
          DefOf(m.setup.def, m.state.status.value).Some?)
    && (m.state.status == Some(Paused) ==>
          && m.state.statusOnPause.Some? && m.state.statusOnPause != Some(Paused)
          && (Terminal(m.state.statusOnPause.value) || DefOf(m.setup.def, m.state.statusOnPause.value).Some?))
    && (m.state.status.Some? && Terminal(m.state.status.value) ==> Done(m.state))
    && (m.state.terminate == Asked ==> m.setup.scope == EdgeScope)
  }

  predicate AllSteady(a: Agv) {
    forall i :: 0 <= i < |a.machines| ==> Steady(a.machines[i])
  }

  predicate SoundCommands(commands: seq<Command>) {
    forall c :: c in commands && c.ExecuteAction? ==> SoundFor(c.setup.def, c.setup.scope)
  }

  lemma SteadyTick(m: Machine, dt: Interval)
    requires Steady(m)
    ensures var (state, out) := OnTick(m.setup, m.state, dt);
            out != Throws && (!EndsWith(out) ==> Steady(m.(state := state)))
  {
  }

  lemma SteadyUnderPause(m: Machine, pause: bool)
    requires Steady(m)
    ensures Steady(m.(state := m.state.(pause := pause)))
  {
  }

  lemma PerformSteady(a: Agv, self: nat, effect: Effect)
    requires AllSteady(a)
    ensures AllSteady(Perform(a, self, effect))
  {
    forall i | 0 <= i < |a.machines| ensures Steady(Perform(a, self, effect).machines[i]) {
      SteadyUnderPause(a.machines[i], true);
      SteadyUnderPause(a.machines[i], false);
    }
  }

  lemma TickMachineSteady(a: Agv, i: nat, dt: Interval)
    requires AllSteady(a)
    ensures AllSteady(TickMachine(a, i, dt).0) && TickMachine(a, i, dt).1 != Throws
  {
    if i < |a.machines| {
      SteadyTick(a.machines[i], dt);
      PerformSteady(TickedAlone(a, i, dt), a.machines[i].serial, EffectOf(a, i, dt));
    }
  }

  lemma ObeySteady(a: Agv, c: Command)
    requires AllSteady(a) && SoundCommands([c])
    ensures AllSteady(Obey(a, c))
  {
    assert c in [c];
  }

  lemma {:induction false} ObeyAllSteady(a: Agv, commands: seq<Command>)
    requires AllSteady(a) && SoundCommands(commands)
    ensures AllSteady(ObeyAll(a, commands))
    decreases |commands|
  {
    if commands != [] {
      ObeySteady(a, commands[0]);
      ObeyAllSteady(Obey(a, commands[0]), commands[1..]);
    }
  }

  /** With sound definitions only, no tick is cut short, whatever the controller commands from its callbacks. */
  lemma {:induction false} SoundTicksComplete(a: Agv, i: nat, dt: Interval, onReport: seq<seq<Command>>)
    requires AllSteady(a) && forall k :: 0 <= k < |onReport| ==> SoundCommands(onReport[k])
    ensures var r := TickLoop(a, i, dt, onReport); !r.thrown && AllSteady(r.agv)
    decreases |onReport|, if i <= |a.machines| then |a.machines| - i else 0
  {
    hide AllSteady, TickMachine, SoundCommands, ObeyAll;
    if i < |a.machines| {
      TickMachineSteady(a, i, dt);
      var (a1, out) := TickMachine(a, i, dt);
      if out.Reports? && onReport != [] {
        ObeyAllSteady(a1, onReport[0]);
        SoundTicksComplete(ObeyAll(a1, onReport[0]), i + 1, dt, onReport[1..]);
      } else {
        TickMachineLength(a, i, dt);
        SoundTicksComplete(a1, i + 1, dt, onReport);
      }
    }
  }

  predicate SoundTurns(turns: seq<Turn>) {
    forall t :: t in turns ==>
      && SoundCommands(t.before) && SoundCommands(t.env.onTraversed)
      && forall k :: 0 <= k < |t.env.onReport| ==> SoundCommands(t.env.onReport[k])
  }

  lemma SoundTurnCompletes(o: Options, a: Agv, turn: Turn)
    requires AllSteady(a) && SoundTurns([turn])
    ensures !Ticking(o, a, turn).thrown && AllSteady(Ticking(o, a, turn).agv)
  {
    assert turn in [turn];
    ObeyAllSteady(a, turn.before);
    var b := Before(a, turn);
    SoundTicksComplete(b, 0, turn.dt, turn.env.onReport);
    var loop := TickLoop(b, 0, turn.dt, turn.env.onReport);
    var driven := AdvanceTraverse(o, loop.agv, turn.dt);
    var reaction := if loop.agv.route.Some? && driven.route.None? then turn.env.onTraversed else [];
    MotionKeepsMachines(o, loop.agv, turn.tick, turn.tickInterval, turn.dt);
    ObeyAllSteady(driven, reaction);
    MotionKeepsMachines(o, ObeyAll(driven, reaction), turn.tick, turn.tickInterval, turn.dt);
  }

  /** With sound definitions only, no run of ticks throws: the premise of the fairness results. */
  lemma {:induction false} SoundRunsThrowNothing(o: Options, a: Agv, turns: seq<Turn>)
    requires AllSteady(a) && SoundTurns(turns)
    ensures NothingThrown(o, a, turns)
    decreases |turns|
  {
    if turns != [] {
      assert turns[0] in turns;
      SoundTurnCompletes(o, a, turns[0]);
      SoundRunsThrowNothing(o, Ticking(o, a, turns[0]).agv, turns[1..]);
    }
  }

  /* The stall */

  /** A termination is pending, nothing that takes precedence is, and the definition has no ON_TERMINATE. */
  predicate Overdue(m: Machine) {
    && m.setup.def.onTerminate.None? && m.state.terminate == Asked
    && m.state.cancel != Ended && !(m.state.cancel == Asked && m.setup.def.cancelable)
    && m.state.status.Some? && (m.state.pause <==> m.state.status == Some(Paused))
  }

  /** The built-in noop on an edge becomes overdue when it is asked to terminate while it works. */
  lemma NoopBecomesOverdue(m: Machine)
    requires m.setup.scope == EdgeScope && m.setup.action.actionType == "noop"
    requires BuiltIn(m.setup.action, EdgeScope) == Some(m.setup.def) && Working(m.state)
    ensures Overdue(m.(state := ActionStateMachine.Step(m.setup, m.state, Terminate).0))
  {
  }

  /** Such a machine throws whenever it is ticked, and stays as it is. */
  lemma OverdueThrows(m: Machine, dt: Interval)
    requires Overdue(m)
    ensures ActionStateMachine.OnTick(m.setup, m.state, dt) == (m.state, Throws)
  {
  }

  /** The move neither pauses or unpauses the machine nor cancels its action. */
  predicate Spares(a: Agv, move: Move, m: Machine) {
    && (move.Ticked? ==>
          var effect := EffectOf(a, move.index, move.dt);
          (effect == StartPause ==> m.state.pause) && (effect == StopPause ==> !m.state.pause))
    && (move.Commanded? && move.command.CancelAction? && m.setup.def.cancelable ==>
          !(move.command.actionId == m.setup.action.actionId && move.command.scope == m.setup.scope))
  }

  predicate SparedThroughout(o: Options, a: Agv, moves: seq<Move>, m: Machine)
    decreases |moves|
  {
    moves != [] ==> Spares(a, moves[0], m) && SparedThroughout(o, Make(o, a, moves[0]), moves[1..], m)
  }

  lemma SparedAlone(a: Agv, i: nat, dt: Interval, m: Machine)
    requires m in a.machines && Overdue(m) && i < |a.machines|
    ensures m in TickedAlone(a, i, dt).machines
  {
    hide ActionStateMachine.OnTick, Overdue;
    var j :| 0 <= j < |a.machines| && a.machines[j] == m;
    var alone := TickedAlone(a, i, dt);
    OverdueThrows(m, dt);
    if EndsWith(ActionStateMachine.OnTick(a.machines[i].setup, a.machines[i].state, dt).1) {
      assert alone.machines[if i < j then j - 1 else j] == m;
    } else {
      assert alone.machines[j] == m;
    }
  }

  lemma SparedTick(a: Agv, i: nat, dt: Interval, m: Machine)
    requires m in a.machines && Overdue(m) && Spares(a, Ticked(i, dt), m)
    ensures m in TickMachine(a, i, dt).0.machines
  {
    if i < |a.machines| {
      hide ActionStateMachine.OnTick, Overdue, TickedAlone, EffectOf, Perform;
      SparedAlone(a, i, dt, m);
      SparedEffect(TickedAlone(a, i, dt), a.machines[i].serial, EffectOf(a, i, dt), m);
    }
  }

  lemma SparedEffect(a: Agv, self: nat, effect: Effect, m: Machine)
    requires m in a.machines && (effect == StartPause ==> m.state.pause) && (effect == StopPause ==> !m.state.pause)
    ensures m in Perform(a, self, effect).machines
  {
    var j :| 0 <= j < |a.machines| && a.machines[j] == m;
    assert Perform(a, self, effect).machines[j] == m;
  }

  lemma SparedAsk(a: Agv, actionId: string, scope: Scope, e: Event, m: Machine)
    requires m in a.machines && Overdue(m)
    requires e == Terminate || (e == Cancel && Spares(a, Commanded(CancelAction(actionId, scope)), m))
    ensures m in Ask(a, actionId, scope, e).machines
  {
    var i, j :| i == Find(a.machines, actionId, scope) && 0 <= j < |a.machines| && a.machines[j] == m;
    if i < |a.machines| {
      assert Ask(a, actionId, scope, e).machines[j] == m;
    }
  }

  lemma SparedMove(o: Options, a: Agv, move: Move, m: Machine)
    requires m in a.machines && Overdue(m) && Spares(a, move, m)
    ensures m in Make(o, a, move).machines
  {
    match move
    case Ticked(i, dt) => SparedTick(a, i, dt, m);
    case Commanded(FinishEdgeAction(actionId, scope)) => SparedAsk(a, actionId, scope, Terminate, m);
    case Commanded(CancelAction(actionId, scope)) => SparedAsk(a, actionId, scope, Cancel, m);
    case _ =>
  }

  /** Until it is paused, unpaused or cancelled, an overdue machine stays in the list. */
  lemma {:induction false} SparedStays(o: Options, a: Agv, moves: seq<Move>, m: Machine)
    requires m in a.machines && Overdue(m) && SparedThroughout(o, a, moves, m)
    ensures m in Play(o, a, moves).machines
    decreases |moves|
  {
    if moves != [] {
      SparedMove(o, a, moves[0], m);
      SparedStays(o, Make(o, a, moves[0]), moves[1..], m);
    }
  }

  lemma {:induction false} SparedInParts(o: Options, a: Agv, front: seq<Move>, back: seq<Move>, m: Machine)
    ensures SparedThroughout(o, a, front + back, m) <==>
            SparedThroughout(o, a, front, m) && SparedThroughout(o, Play(o, a, front), back, m)
    decreases |front|
  {
    hide Spares, Make;
    if front == [] {
      assert front + back == back;
    } else {
      assert (front + back)[1..] == front[1..] + back;
      SparedInParts(o, Make(o, a, front[0]), front[1..], back, m);
    }
  }

  lemma LoopMoves(o: Options, a: Agv, i: nat, dt: Interval, onReport: seq<seq<Command>>)
    requires i < |a.machines| && TickMachine(a, i, dt).1 != Throws
    ensures var rest := TickLoop(StepState(a, i, dt, onReport), i + 1, dt, StepReactions(a, i, dt, onReport));
            exists step ::
              && TickLoop(a, i, dt, onReport).moves == step + rest.moves
              && Play(o, a, step) == StepState(a, i, dt, onReport)
  {
    hide TickMachine, ObeyAll, MovesOf;
    var (a1, out) := TickMachine(a, i, dt);
    var commands := if out.Reports? && onReport != [] then onReport[0] else [];
    var step := [Ticked(i, dt)] + MovesOf(commands);
    NothingToObey(a1);
    PlayOne(o, a, Ticked(i, dt), MovesOf(commands));
    assert Make(o, a, Ticked(i, dt)) == a1;
    CommandsAreMoves(o, a1, commands);
    var rest := TickLoop(StepState(a, i, dt, onReport), i + 1, dt, StepReactions(a, i, dt, onReport));
    assert TickLoop(a, i, dt, onReport).moves == step + rest.moves;
  }

  lemma NothingToObey(a: Agv)
    ensures ObeyAll(a, []) == a && MovesOf([]) == []
  {
  }

  lemma TheMachine(a: Agv, i: nat, m: Machine)
    requires OrderedAgv(a) && i < |a.machines| && m in a.machines && m.serial == a.machines[i].serial
    ensures a.machines[i] == m
  {
    var j :| 0 <= j < |a.machines| && a.machines[j] == m;
    assert Serials(a.machines)[i] == Serials(a.machines)[j];
  }

  /** A loop that reaches an overdue machine is cut short. */
  lemma {:induction false} LoopMeetsOverdue(o: Options, a: Agv, i: nat, dt: Interval, onReport: seq<seq<Command>>,
                                            m: Machine)
    requires OrderedAgv(a) && m in a.machines && Overdue(m)
    requires SparedThroughout(o, a, TickLoop(a, i, dt, onReport).moves, m)
    ensures m.serial in TickLoop(a, i, dt, onReport).ticked ==> TickLoop(a, i, dt, onReport).thrown
    decreases |onReport|, if i <= |a.machines| then |a.machines| - i else 0
  {
    hide TickLoop, TickMachine, StepState, StepReactions, Overdue, SparedThroughout;
    var r := TickLoop(a, i, dt, onReport);
    if i >= |a.machines| {
      LoopEnds(a, i, dt, onReport);
    } else if TickMachine(a, i, dt).1 == Throws {
      LoopThrows(a, i, dt, onReport);
    } else {
      var a', left := StepState(a, i, dt, onReport), StepReactions(a, i, dt, onReport);
      if a.machines[i].serial == m.serial {
        TheMachine(a, i, m);
        OverdueOutcome(a, i, dt);
      }
      LoopUnfolds(a, i, dt, onReport);
      LoopMoves(o, a, i, dt, onReport);
      var rest := TickLoop(a', i + 1, dt, left);
      var step :| r.moves == step + rest.moves && Play(o, a, step) == a';
      SparedInParts(o, a, step, rest.moves, m);
      SparedStays(o, a, step, m);
      StepShape(a, i, dt, onReport);
      StepDecreases(a, i, dt, onReport);
      LoopMeetsOverdue(o, a', i + 1, dt, left, m);
    }
  }

  lemma OverdueOutcome(a: Agv, i: nat, dt: Interval)
    requires i < |a.machines| && Overdue(a.machines[i])
    ensures TickMachine(a, i, dt).1 == Throws
  {
  }

  /** The moves of a turn: the commands before the tick, and those of the tick. */
  function TurnMoves(o: Options, a: Agv, turn: Turn): seq<Move> {
    MovesOf(turn.before) + Ticking(o, a, turn).moves
  }

  function TurnsMoves(o: Options, a: Agv, turns: seq<Turn>): seq<Move>
    decreases |turns|
  {
    if turns == [] then [] else TurnMoves(o, a, turns[0]) + TurnsMoves(o, Ticking(o, a, turns[0]).agv, turns[1..])
  }

  /** The number of ticks that no exception cuts short. */
  function CompletedTicks(o: Options, a: Agv, turns: seq<Turn>): nat
    decreases |turns|
  {
    if turns == [] then 0
    else
      var r := Ticking(o, a, turns[0]);
      (if r.thrown then 0 else 1) + CompletedTicks(o, r.agv, turns[1..])
  }

  lemma {:induction false} CommandsOnly(commands: seq<Command>)
    ensures forall m :: m in MovesOf(commands) ==> m.Commanded?
  {
    if commands != [] {
      CommandsOnly(commands[1..]);
    }
  }

  lemma {:induction false} LoopNeitherDrivesNorCharges(a: Agv, i: nat, dt: Interval, onReport: seq<seq<Command>>)
    ensures forall m :: m in TickLoop(a, i, dt, onReport).moves ==> m.Commanded? || m.Ticked?
    decreases |onReport|, if i <= |a.machines| then |a.machines| - i else 0
  {
    hide TickMachine, ObeyAll, MovesOf;
    if i < |a.machines| && TickMachine(a, i, dt).1 != Throws {
      StepDecreases(a, i, dt, onReport);
      LoopNeitherDrivesNorCharges(StepState(a, i, dt, onReport), i + 1, dt, StepReactions(a, i, dt, onReport));
      if TickMachine(a, i, dt).1.Reports? && onReport != [] {
        CommandsOnly(onReport[0]);
      }
    }
  }

  /** A tick drives and charges exactly if no exception cuts it short. */
  lemma CutShortExactly(o: Options, a: Agv, turn: Turn)
    ensures var r := Ticking(o, a, turn);
            && (r.thrown ==> forall m :: m in r.moves ==> m.Commanded? || m.Ticked?)
            && (!r.thrown ==> Driven(turn.dt) in r.moves && Charged(turn.tick, turn.tickInterval, turn.dt) in r.moves)
  {
    LoopNeitherDrivesNorCharges(Before(a, turn), 0, turn.dt, turn.env.onReport);
    assert Driven(turn.dt) in [Driven(turn.dt)];
  }

  lemma TurnIsRun(o: Options, a: Agv, turn: Turn)
    ensures Play(o, a, MovesOf(turn.before)) == Before(a, turn)
    ensures Play(o, Before(a, turn), Ticking(o, a, turn).moves) == Ticking(o, a, turn).agv
  {
    CommandsAreMoves(o, a, turn.before);
    TickIsRun(o, Before(a, turn), turn.tick, turn.tickInterval, turn.dt, turn.env);
  }

  /** A tick that completes has skipped the overdue machine. */
  lemma TurnSkipsOverdue(o: Options, a: Agv, turn: Turn, m: Machine)
    requires OrderedAgv(a) && m in a.machines && Overdue(m) && SparedThroughout(o, a, TurnMoves(o, a, turn), m)
    ensures var r := Ticking(o, a, turn);
            && m in r.agv.machines && (m.serial in r.ticked ==> r.thrown)
  {
    hide Overdue, SparedThroughout, TickLoop, MovesOf;
    TurnIsRun(o, a, turn);
    var b, r := Before(a, turn), Ticking(o, a, turn);
    SparedInParts(o, a, MovesOf(turn.before), r.moves, m);
    SparedStays(o, a, MovesOf(turn.before), m);
    SparedStays(o, b, r.moves, m);
    var loop := TickLoop(b, 0, turn.dt, turn.env.onReport);
    ObeyAllAppends(a, turn.before);
    if !r.thrown {
      assert exists rest :: r.moves == loop.moves + rest by {
        LoopMovesFirst(o, a, turn);
      }
      var rest :| r.moves == loop.moves + rest;
      SparedInParts(o, b, loop.moves, rest, m);
    }
    LoopMeetsOverdue(o, b, 0, turn.dt, turn.env.onReport, m);
  }

  lemma LoopMovesFirst(o: Options, a: Agv, turn: Turn)
    requires !Ticking(o, a, turn).thrown
    ensures exists rest ::
              Ticking(o, a, turn).moves == TickLoop(Before(a, turn), 0, turn.dt, turn.env.onReport).moves + rest
  {
    hide TickLoop;
    var loop := TickLoop(Before(a, turn), 0, turn.dt, turn.env.onReport);
    var driven := AdvanceTraverse(o, loop.agv, turn.dt);
    var reaction := if loop.agv.route.Some? && driven.route.None? then turn.env.onTraversed else [];
    assert Ticking(o, a, turn).moves ==
           loop.moves + ([Driven(turn.dt)] + MovesOf(reaction) + [Charged(turn.tick, turn.tickInterval, turn.dt)]);
  }

  /**
   An overdue machine stalls the AGV: until it is paused, unpaused or cancelled, at most as many ticks complete
   as there are machines ahead of it; all others are cut short, so that the vehicle neither drives nor charges.
   */
  lemma {:induction false} OverdueStallsAgv(o: Options, a: Agv, turns: seq<Turn>, m: Machine)
    requires OrderedAgv(a) && m in a.machines && Overdue(m) && SparedThroughout(o, a, TurnsMoves(o, a, turns), m)
    ensures m in AfterTurns(o, a, turns).machines
    ensures CompletedTicks(o, a, turns) + |Ahead(AfterTurns(o, a, turns), m.serial)| <= |Ahead(a, m.serial)|
    decreases |turns|
  {
    hide Overdue, SparedThroughout, Ticking, TurnMoves;
    if turns != [] {
      var r := Ticking(o, a, turns[0]);
      var rest := TurnsMoves(o, r.agv, turns[1..]);
      SparedInParts(o, a, TurnMoves(o, a, turns[0]), rest, m);
      TurnPlays(o, a, turns[0]);
      TurnSkipsOverdue(o, a, turns[0], m);
      SerialIsOld(a, m);
      TurnShrinksAhead(o, a, turns[0], m.serial);
      SubsetSize(Ahead(r.agv, m.serial), Ahead(a, m.serial));
      OverdueStallsAgv(o, r.agv, turns[1..], m);
    }
  }

  lemma TurnPlays(o: Options, a: Agv, turn: Turn)
    ensures Play(o, a, TurnMoves(o, a, turn)) == Ticking(o, a, turn).agv
  {
    TurnIsRun(o, a, turn);
    PlayConcat(o, a, MovesOf(turn.before), Ticking(o, a, turn).moves);
  }

  lemma SerialIsOld(a: Agv, m: Machine)
    requires OrderedAgv(a) && m in a.machines
    ensures m.serial < a.nextSerial && Listed(a, m.serial)
  {
    var j :| 0 <= j < |a.machines| && a.machines[j] == m;
    assert Serials(a.machines)[j] == m.serial;
  }

  /** The bound is met: behind a machine that ends, an overdue one is skipped, and the tick completes. */
  lemma SkippedOverdue(a: Agv, dt: Interval)
    requires |a.machines| == 2 && EndsWith(TickMachine(a, 0, dt).1) && Overdue(a.machines[1])
    ensures !TickLoop(a, 0, dt, []).thrown
  {
    TickMachineShape(a, 0, dt);
    LoopEnds(TickMachine(a, 0, dt).0, 1, dt, []);
  }
}
