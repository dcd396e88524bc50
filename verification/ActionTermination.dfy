/** Every unpaused action ends: ticking it makes progress, and skipping it uses up the machines ahead of it. */
module ActionTermination {
  import opened Wrappers
  import opened Actions
  import opened ActionStateMachine
  import opened ActionTiming
  import opened Geometry
  import opened VirtualAgv
  import opened TickRound
  import opened TickFairness

  /** The same machine but for requests made to it: its status and the time spent are the same. */
  predicate SameProgress(m: Machine, m': Machine) {
    && m'.serial == m.serial && m'.setup == m.setup
    && m'.state.status == m.state.status && m'.state.spent == m.state.spent
    && Done(m'.state) == Done(m.state)
    && (m'.state.terminate == Asked ==> m.state.terminate == Asked || m.setup.scope == EdgeScope)
  }

  /** A machine that the clock alone brings to its end. */
  predicate Progressing(setup: Setup, m: MachineState) {
    && SoundFor(setup.def, setup.scope) && NonNegativeDurations(setup.def, setup.action)
    && !Done(m) && m.status != Some(Paused)
    && (m.status.Some? ==>
          && m.status.value in {Initializing, Running} && DefOf(setup.def, m.status.value).Some?
          && 0.0 <= Spent(m, m.status.value) <= DurationOf(setup.def, setup.action, m.status.value))
    && (m.status.None? ==> Spent(m, Initializing) == 0.0)
    && (m.status != Some(Running) ==> Spent(m, Running) == 0.0)
    && (m.terminate == Asked ==> setup.scope == EdgeScope)
  }

  /** The time and the intervals of `q` seconds that the machine can still take. */
  function Potential(setup: Setup, m: MachineState, q: real): real
    requires Progressing(setup, m)
  {
    match m.status
    case None => q + EstimateFrom(setup.def, setup.action, setup.def.onInit) + SlackFrom(setup, q, setup.def.onInit)
    case Some(s) => EstimateFrom(setup.def, setup.action, s) - Spent(m, s) + SlackFrom(setup, q, s)
  }

  /** A tick of at least `q` seconds ends an unpaused machine or uses up `q` of its potential. */
  lemma TickProgresses(setup: Setup, m: MachineState, q: Positive, dt: Interval)
    requires Progressing(setup, m) && !m.pause && dt >= q
    ensures var (m', out) := OnTick(setup, m, dt);
            && out != Throws
            && (Done(m') <==> EndsWith(out))
            && (!Done(m') ==> Progressing(setup, m') && Potential(setup, m', q) <= Potential(setup, m, q) - q)
    ensures Potential(setup, m, q) >= q
  {
    match m.status {
      case None =>
        if Terminal(setup.def.onInit) {
          TimeEnds(setup, q, setup.def.onInit);
        } else {
          TimeUnfolds(setup, q, setup.def.onInit);
        }
      case Some(s) =>
        TimeUnfolds(setup, q, s);
        var next := DefOf(setup.def, s).value.next;
        if Terminal(next) {
          TimeEnds(setup, q, next);
        } else {
          TimeUnfolds(setup, q, next);
        }
    }
  }

  lemma FreshPotential(setup: Setup, q: real)
    requires SoundFor(setup.def, setup.scope) && NonNegativeDurations(setup.def, setup.action)
    ensures Progressing(setup, Fresh(false))
    ensures Potential(setup, Fresh(false), q) == Estimate(setup) + (Visited(setup) + 1) as real * q
  {
    var k := Visited(setup);
    assert (k + 1) as real * q == k as real * q + q;
  }

  lemma ProgressTransfers(m: Machine, m': Machine, q: real)
    requires Progressing(m.setup, m.state) && SameProgress(m, m')
    ensures Progressing(m'.setup, m'.state) && Potential(m'.setup, m'.state, q) == Potential(m.setup, m.state, q)
  {
  }

  /* In the list */

  /** The index of a listed machine. */
  function At(a: Agv, x: nat): (i: nat)
    requires Listed(a, x)
    ensures i < |a.machines| && a.machines[i].serial == x
  {
    assert exists i :: 0 <= i < |Serials(a.machines)| && Serials(a.machines)[i] == x;
    IndexOf(Serials(a.machines), x)
  }

  function IndexOf(s: seq<nat>, x: nat): (i: nat)
    requires x in s
    ensures i < |s| && s[i] == x
  {
    if s[0] == x then 0 else 1 + IndexOf(s[1..], x)
  }

  function MachineOf(a: Agv, x: nat): Machine
    requires Listed(a, x)
  {
    a.machines[At(a, x)]
  }

  lemma IndexIsUnique(a: Agv, x: nat, i: nat)
    requires OrderedAgv(a) && i < |a.machines| && a.machines[i].serial == x
    ensures Listed(a, x) && At(a, x) == i
  {
    assert Serials(a.machines)[i] == x;
  }

  /** Machine `x`, if it is listed, stays listed, and nobody ticks it. */
  predicate LeavesAlone(a: Agv, a': Agv, x: nat) {
    && OrderedAgv(a') && (x < a.nextSerial ==> x < a'.nextSerial)
    && (Listed(a, x) ==> Listed(a', x) && SameProgress(MachineOf(a, x), MachineOf(a', x)))
    && (x < a.nextSerial && Listed(a', x) ==> Listed(a, x))
  }

  lemma AskLeavesAlone(a: Agv, actionId: string, scope: Scope, e: Event, x: nat)
    requires OrderedAgv(a) && (e.Cancel? || e.Terminate?)
    ensures LeavesAlone(a, Ask(a, actionId, scope, e), x)
  {
    var a' := Ask(a, actionId, scope, e);
    assert Serials(a'.machines) == Serials(a.machines);
    if Listed(a, x) {
      IndexIsUnique(a', x, At(a, x));
    }
  }

  lemma ObeyLeavesAlone(a: Agv, c: Command, x: nat)
    requires OrderedAgv(a) && x < a.nextSerial
    ensures LeavesAlone(a, Obey(a, c), x)
  {
    ObeyAppends(a, c);
    var a' := Obey(a, c);
    match c {
      case FinishEdgeAction(actionId, scope) => AskLeavesAlone(a, actionId, scope, Terminate, x);
      case CancelAction(actionId, scope) => AskLeavesAlone(a, actionId, scope, Cancel, x);
      case _ =>
        if Listed(a, x) {
          IndexIsUnique(a', x, At(a, x));
        }
        if Listed(a', x) {
          assert At(a', x) < |a.machines|;
          IndexIsUnique(a, x, At(a', x));
        }
    }
  }

  lemma PerformLeavesAlone(a: Agv, self: nat, effect: Effect, x: nat)
    requires OrderedAgv(a)
    ensures LeavesAlone(a, Perform(a, self, effect), x)
  {
    var a' := Perform(a, self, effect);
    PerformKeepsSerials(a, self, effect);
    if Listed(a, x) {
      IndexIsUnique(a', x, At(a, x));
    }
  }

  lemma WithoutAtForth(s: seq<nat>, i: nat, p: nat)
    requires i < |s| && p < |s| && p != i
    ensures MovedTo(i, true, p) < |WithoutAt(s, i)| && WithoutAt(s, i)[MovedTo(i, true, p)] == s[p]
  {
  }

  lemma WithoutAtBack(s: seq<nat>, i: nat, p: nat)
    requires i < |s| && p < |WithoutAt(s, i)|
    ensures p + 1 < |s| || p < i
    ensures WithoutAt(s, i)[p] == s[if p >= i then p + 1 else p]
  {
  }

  lemma TickedAloneShape(a: Agv, i: nat, dt: Interval)
    requires i < |a.machines|
    ensures var ends := EndsWith(OnTick(a.machines[i].setup, a.machines[i].state, dt).1);
            Serials(TickedAlone(a, i, dt).machines) ==
            if ends then WithoutAt(Serials(a.machines), i) else Serials(a.machines)
  {
  }

  /** A tick of another machine. */
  lemma OtherTickLeavesAlone(a: Agv, i: nat, dt: Interval, x: nat)
    requires OrderedAgv(a) && i < |a.machines| && a.machines[i].serial != x
    ensures LeavesAlone(a, TickedAlone(a, i, dt), x)
  {
    hide OnTick, WithoutAt;
    var a' := TickedAlone(a, i, dt);
    var ends := EndsWith(OnTick(a.machines[i].setup, a.machines[i].state, dt).1);
    WithoutAtOrdered(Serials(a.machines), a.nextSerial, i);
    TickedAloneShape(a, i, dt);
    if Listed(a, x) {
      WithoutAtForth(Serials(a.machines), i, At(a, x));
      IndexIsUnique(a', x, MovedTo(i, ends, At(a, x)));
    }
    if Listed(a', x) {
      var p := At(a', x);
      if ends {
        WithoutAtBack(Serials(a.machines), i, p);
      }
      IndexIsUnique(a, x, if ends && p >= i then p + 1 else p);
    }
  }

  lemma LeftAloneTwice(a: Agv, a1: Agv, a2: Agv, x: nat)
    requires LeavesAlone(a, a1, x) && LeavesAlone(a1, a2, x)
    ensures LeavesAlone(a, a2, x)
  {
  }

  lemma {:induction false} ObeyAllLeavesAlone(a: Agv, commands: seq<Command>, x: nat)
    requires OrderedAgv(a) && x < a.nextSerial
    ensures LeavesAlone(a, ObeyAll(a, commands), x)
    decreases |commands|
  {
    if commands != [] {
      var a1 := Obey(a, commands[0]);
      ObeyLeavesAlone(a, commands[0], x);
      ObeyAllLeavesAlone(a1, commands[1..], x);
      LeftAloneTwice(a, a1, ObeyAll(a1, commands[1..]), x);
    }
  }

  /* Progress of a machine in the list */

  /** If `x` is still listed it has used up at least `used` seconds of its potential. */
  predicate Advances(a: Agv, a': Agv, x: nat, q: real, used: real) {
    && OrderedAgv(a') && x < a'.nextSerial
    && (Listed(a', x) ==>
          && Listed(a, x)
          && Progressing(MachineOf(a, x).setup, MachineOf(a, x).state)
          && Progressing(MachineOf(a', x).setup, MachineOf(a', x).state)
          && Potential(MachineOf(a', x).setup, MachineOf(a', x).state, q)
               <= Potential(MachineOf(a, x).setup, MachineOf(a, x).state, q) - used)
  }

  predicate GoesOn(a: Agv, x: nat) {
    && OrderedAgv(a) && x < a.nextSerial
    && (Listed(a, x) ==> Progressing(MachineOf(a, x).setup, MachineOf(a, x).state))
  }

  lemma AloneAdvances(a: Agv, a': Agv, x: nat, q: real)
    requires GoesOn(a, x) && LeavesAlone(a, a', x)
    ensures Advances(a, a', x, q, 0.0) && GoesOn(a', x)
  {
    if Listed(a', x) {
      ProgressTransfers(MachineOf(a, x), MachineOf(a', x), q);
    }
  }

  lemma AdvancesTwice(a: Agv, a1: Agv, a2: Agv, x: nat, q: real, u1: real, u2: real)
    requires Advances(a, a1, x, q, u1) && Advances(a1, a2, x, q, u2)
    ensures Advances(a, a2, x, q, u1 + u2)
  {
  }

  lemma OwnTickAdvances(a: Agv, i: nat, dt: Interval, x: nat, q: Positive)
    requires GoesOn(a, x) && i < |a.machines| && a.machines[i].serial == x
    requires !a.machines[i].state.pause && dt >= q
    ensures Advances(a, TickedAlone(a, i, dt), x, q, q) && GoesOn(TickedAlone(a, i, dt), x)
  {
    var a' := TickedAlone(a, i, dt);
    var m := a.machines[i];
    IndexIsUnique(a, x, i);
    TickProgresses(m.setup, m.state, q, dt);
    var ends := EndsWith(OnTick(m.setup, m.state, dt).1);
    WithoutAtOrdered(Serials(a.machines), a.nextSerial, i);
    assert Serials(a'.machines) == if ends then WithoutAt(Serials(a.machines), i) else Serials(a.machines);
    if !ends {
      IndexIsUnique(a', x, i);
    }
  }

  lemma TickAdvances(a: Agv, i: nat, dt: Interval, x: nat, q: Positive)
    requires GoesOn(a, x) && i < |a.machines| && dt >= q
    requires a.machines[i].serial == x ==> !a.machines[i].state.pause
    ensures var a' := TickMachine(a, i, dt).0;
            Advances(a, a', x, q, if a.machines[i].serial == x then q else 0.0) && GoesOn(a', x)
  {
    var alone := TickedAlone(a, i, dt);
    if a.machines[i].serial == x {
      OwnTickAdvances(a, i, dt, x, q);
    } else {
      OtherTickLeavesAlone(a, i, dt, x);
      AloneAdvances(a, alone, x, q);
    }
    PerformLeavesAlone(alone, a.machines[i].serial, EffectOf(a, i, dt), x);
    AloneAdvances(alone, Perform(alone, a.machines[i].serial, EffectOf(a, i, dt)), x, q);
  }

  lemma StepAdvances(a: Agv, i: nat, dt: Interval, onReport: seq<seq<Command>>, x: nat, q: Positive)
    requires GoesOn(a, x) && i < |a.machines| && dt >= q
    requires a.machines[i].serial == x ==> !a.machines[i].state.pause
    ensures var a' := StepState(a, i, dt, onReport);
            Advances(a, a', x, q, if a.machines[i].serial == x then q else 0.0) && GoesOn(a', x)
  {
    TickAdvances(a, i, dt, x, q);
    var (a1, out) := TickMachine(a, i, dt);
    if out.Reports? && onReport != [] {
      ObeyAllLeavesAlone(a1, onReport[0], x);
      AloneAdvances(a1, ObeyAll(a1, onReport[0]), x, q);
    }
  }

  /** Whenever the loop ticks `x`, `x` is not asked to pause. */
  predicate TickedUnpaused(a: Agv, i: nat, dt: Interval, onReport: seq<seq<Command>>, x: nat)
    decreases |onReport|, if i <= |a.machines| then |a.machines| - i else 0
  {
    i < |a.machines| ==>
      && (a.machines[i].serial == x ==> !a.machines[i].state.pause)
      && (StepDecreases(a, i, dt, onReport);
          TickedUnpaused(StepState(a, i, dt, onReport), i + 1, dt, StepReactions(a, i, dt, onReport), x))
  }

  predicate RoundAdvances(a: Agv, r: Round, x: nat, q: real) {
    Advances(a, r.agv, x, q, if x in r.ticked then q else 0.0) && GoesOn(r.agv, x)
  }

  lemma RoundStepAdvances(a: Agv, a': Agv, serial: nat, rest: Round, r: Round, x: nat, q: Positive)
    requires Advances(a, a', x, q, if serial == x then q else 0.0) && RoundAdvances(a', rest, x, q)
    requires r.agv == rest.agv && r.ticked == [serial] + rest.ticked
    ensures RoundAdvances(a, r, x, q)
  {
    AdvancesTwice(a, a', rest.agv, x, q, if serial == x then q else 0.0, if x in rest.ticked then q else 0.0);
  }

  lemma NothingAdvances(a: Agv, r: Round, x: nat, q: real)
    requires GoesOn(a, x) && r.agv == a && r.ticked == []
    ensures RoundAdvances(a, r, x, q)
  {
  }

  lemma {:induction false} LoopAdvances(a: Agv, i: nat, dt: Interval, onReport: seq<seq<Command>>, x: nat, q: Positive)
    requires GoesOn(a, x) && dt >= q && !TickLoop(a, i, dt, onReport).thrown
    requires TickedUnpaused(a, i, dt, onReport, x)
    ensures RoundAdvances(a, TickLoop(a, i, dt, onReport), x, q)
    decreases |onReport|, if i <= |a.machines| then |a.machines| - i else 0
  {
    hide RoundAdvances, GoesOn, TickMachine, TickLoop, StepState, StepReactions;
    var r := TickLoop(a, i, dt, onReport);
    if i >= |a.machines| {
      LoopEnds(a, i, dt, onReport);
      NothingAdvances(a, r, x, q);
    } else {
      var a', left := StepState(a, i, dt, onReport), StepReactions(a, i, dt, onReport);
      StepAdvances(a, i, dt, onReport, x, q);
      StepDecreases(a, i, dt, onReport);
      if TickMachine(a, i, dt).1 == Throws {
        LoopThrows(a, i, dt, onReport);
      }
      LoopUnfolds(a, i, dt, onReport);
      LoopAdvances(a', i + 1, dt, left, x, q);
      RoundStepAdvances(a, a', a.machines[i].serial, TickLoop(a', i + 1, dt, left), r, x, q);
    }
  }

  /* Progress over many ticks */

  lemma MotionLeavesAlone(a: Agv, a': Agv, x: nat)
    requires OrderedAgv(a) && a'.machines == a.machines && a'.nextSerial == a.nextSerial
    ensures LeavesAlone(a, a', x)
  {
    if Listed(a, x) {
      IndexIsUnique(a', x, At(a, x));
    }
  }

  lemma AfterLoopAlone(o: Options, a: Agv, turn: Turn, reaction: seq<Command>, x: nat)
    requires OrderedAgv(a) && x < a.nextSerial
    ensures var driven := AdvanceTraverse(o, a, turn.dt);
            LeavesAlone(a, AdvanceCharge(o, ObeyAll(driven, reaction), turn.tick, turn.tickInterval, turn.dt), x)
  {
    MotionKeepsMachines(o, a, turn.tick, turn.tickInterval, turn.dt);
    var driven := AdvanceTraverse(o, a, turn.dt);
    MotionLeavesAlone(a, driven, x);
    ObeyAllLeavesAlone(driven, reaction, x);
    var reacted := ObeyAll(driven, reaction);
    MotionKeepsMachines(o, reacted, turn.tick, turn.tickInterval, turn.dt);
    var charged := AdvanceCharge(o, reacted, turn.tick, turn.tickInterval, turn.dt);
    MotionLeavesAlone(reacted, charged, x);
    LeftAloneTwice(a, driven, reacted, x);
    LeftAloneTwice(a, reacted, charged, x);
  }

  /** One turn: if it ticks `x`, and `x` stays, `x` has used up an interval of its potential. */
  lemma TurnAdvances(o: Options, a: Agv, turn: Turn, x: nat, q: Positive)
    requires GoesOn(a, x) && turn.dt >= q && !Ticking(o, a, turn).thrown
    requires TickedUnpaused(Before(a, turn), 0, turn.dt, turn.env.onReport, x)
    ensures RoundAdvances(a, Ticking(o, a, turn), x, q)
  {
    var b := Before(a, turn);
    ObeyAllLeavesAlone(a, turn.before, x);
    AloneAdvances(a, b, x, q);
    var loop := TickLoop(b, 0, turn.dt, turn.env.onReport);
    LoopAdvances(b, 0, turn.dt, turn.env.onReport, x, q);
    var used := if x in loop.ticked then q else 0.0;
    AdvancesTwice(a, b, loop.agv, x, q, 0.0, used);
    var driven := AdvanceTraverse(o, loop.agv, turn.dt);
    var reaction := if loop.agv.route.Some? && driven.route.None? then turn.env.onTraversed else [];
    AfterLoopAlone(o, loop.agv, turn, reaction, x);
    AloneAdvances(loop.agv, Ticking(o, a, turn).agv, x, q);
    AdvancesTwice(a, loop.agv, Ticking(o, a, turn).agv, x, q, used, 0.0);
  }

  predicate TurnsUnpaused(o: Options, a: Agv, turns: seq<Turn>, x: nat)
    decreases |turns|
  {
    turns != [] ==>
      && TickedUnpaused(Before(a, turns[0]), 0, turns[0].dt, turns[0].env.onReport, x)
      && TurnsUnpaused(o, Ticking(o, a, turns[0]).agv, turns[1..], x)
  }

  predicate LongTurns(turns: seq<Turn>, q: real) {
    forall t :: t in turns ==> t.dt >= q
  }

  /** The machines ahead, each good for one skipped tick of `q` seconds. */
  function Queue(a: Agv, x: nat, q: real): real {
    |Ahead(a, x)| as real * q
  }

  lemma QueueShrinks(a: Agv, a': Agv, x: nat, q: Positive, skipped: bool)
    requires Ahead(a', x) <= Ahead(a, x) && (skipped ==> Ahead(a', x) < Ahead(a, x))
    ensures Queue(a', x, q) <= Queue(a, x, q) - if skipped then q else 0.0
  {
    SubsetSize(Ahead(a', x), Ahead(a, x));
    ScaleCount(|Ahead(a', x)|, |Ahead(a, x)|, q);
    if skipped {
      ScaleCount(|Ahead(a', x)| + 1, |Ahead(a, x)|, q);
      MulStep(|Ahead(a', x)|, q);
    }
  }

  lemma ScaleCount(m: nat, n: nat, q: Positive)
    requires m <= n
    ensures m as real * q <= n as real * q
  {
  }

  /** What a listed machine still has to use up. */
  function Measure(a: Agv, x: nat, q: real): real
    requires Listed(a, x) && Progressing(MachineOf(a, x).setup, MachineOf(a, x).state)
  {
    Potential(MachineOf(a, x).setup, MachineOf(a, x).state, q) + Queue(a, x, q)
  }

  /** While machine `x` stays listed, every turn uses up an interval of its potential or a machine ahead of it. */
  lemma TurnUsesUp(o: Options, a: Agv, turn: Turn, x: nat, q: Positive)
    requires GoesOn(a, x) && turn.dt >= q && !Ticking(o, a, turn).thrown
    requires TickedUnpaused(Before(a, turn), 0, turn.dt, turn.env.onReport, x)
    ensures var a' := Ticking(o, a, turn).agv;
            && GoesOn(a', x)
            && (Listed(a', x) ==> Listed(a, x) && Measure(a', x, q) + q <= Measure(a, x, q))
  {
    TurnAdvances(o, a, turn, x, q);
    TurnShrinksAhead(o, a, turn, x);
    var r := Ticking(o, a, turn);
    if Listed(r.agv, x) {
      QueueShrinks(a, r.agv, x, q, x !in r.ticked);
    }
  }

  lemma MeasureNonNegative(a: Agv, x: nat, q: Positive)
    requires Listed(a, x) && Progressing(MachineOf(a, x).setup, MachineOf(a, x).state)
    ensures Measure(a, x, q) >= 0.0
  {
    PotentialNonNegative(MachineOf(a, x).setup, MachineOf(a, x).state, q);
    ScaleCount(0, |Ahead(a, x)|, q);
  }

  /** An interval for each of some turns. */
  function Spans(n: nat, q: real): real {
    if n == 0 then 0.0 else q + Spans(n - 1, q)
  }

  lemma {:induction false} SpansMultiply(n: nat, q: real)
    ensures Spans(n, q) == n as real * q
  {
    if n > 0 {
      SpansMultiply(n - 1, q);
      MulStep(n - 1, q);
    }
  }

  lemma {:induction false} TurnsUseUp(o: Options, a: Agv, turns: seq<Turn>, x: nat, q: Positive)
    requires GoesOn(a, x) && NothingThrown(o, a, turns) && TurnsUnpaused(o, a, turns, x) && LongTurns(turns, q)
    requires Listed(AfterTurns(o, a, turns), x)
    ensures Listed(a, x) && Spans(|turns|, q) <= Measure(a, x, q)
    decreases |turns|
  {
    if turns == [] {
      MeasureNonNegative(a, x, q);
    } else {
      var a' := Ticking(o, a, turns[0]).agv;
      assert turns[0] in turns;
      TurnUsesUp(o, a, turns[0], x, q);
      TurnsUseUp(o, a', turns[1..], x, q);
    }
  }

  lemma PotentialNonNegative(setup: Setup, m: MachineState, q: Positive)
    requires Progressing(setup, m)
    ensures Potential(setup, m, q) >= 0.0
  {
    TickProgresses(setup, m.(pause := false), q, q);
  }

  /**
   Every unpaused action ends: one that is executed while n machines are listed, unless a pause holds it back
   (it never holds back stopPause, which is executed during a pause only), is never asked to pause
   when it is ticked, and is driven by ticks of at least q seconds, has left the list after more than
   D/q + k + 1 + n ticks, D being its estimate and k the number of its timed statuses.
   */
  lemma UnpausedActionsEnd(o: Options, a: Agv, setup: Setup, stopDriving: bool, hasActiveOrder: bool,
                           turns: seq<Turn>, q: Positive)
    requires OrderedAgv(a) && Executable(a.vehicle, setup, hasActiveOrder)
    requires !a.vehicle.isPaused || ControlsPause(setup)
    requires SoundFor(setup.def, setup.scope) && NonNegativeDurations(setup.def, setup.action)
    requires var executed := Obey(a, ExecuteAction(setup, stopDriving, hasActiveOrder));
             && NothingThrown(o, executed, turns) && TurnsUnpaused(o, executed, turns, a.nextSerial)
    requires LongTurns(turns, q)
    requires (|turns| - Visited(setup) - 1 - |a.machines|) as real * q > Estimate(setup)
    ensures var executed := Obey(a, ExecuteAction(setup, stopDriving, hasActiveOrder));
            Listed(executed, a.nextSerial) && !Listed(AfterTurns(o, executed, turns), a.nextSerial)
  {
    hide GoesOn, NothingThrown, TurnsUnpaused, LongTurns, Measure, Queue, Estimate, Visited, Listed, AfterTurns, Sound;
    var executed := Obey(a, ExecuteAction(setup, stopDriving, hasActiveOrder));
    JustExecuted(a, setup, stopDriving, hasActiveOrder, q);
    EndsInTime(o, executed, turns, a.nextSerial, setup, |a.machines|, q);
  }

  lemma EndsInTime(o: Options, a: Agv, turns: seq<Turn>, x: nat, setup: Setup, n: nat, q: Positive)
    requires GoesOn(a, x) && NothingThrown(o, a, turns) && TurnsUnpaused(o, a, turns, x) && LongTurns(turns, q)
    requires Listed(a, x) && Sound(setup.def) && |Ahead(a, x)| <= n
    requires Measure(a, x, q) == Estimate(setup) + (Visited(setup) + 1) as real * q + Queue(a, x, q)
    requires (|turns| - Visited(setup) - 1 - n) as real * q > Estimate(setup)
    ensures !Listed(AfterTurns(o, a, turns), x)
  {
    hide GoesOn, NothingThrown, TurnsUnpaused, LongTurns, Listed, Sound, Measure, Estimate, Visited, AfterTurns;
    TooManyTurns(setup, |turns|, |Ahead(a, x)|, n, q);
    if Listed(AfterTurns(o, a, turns), x) {
      TurnsUseUp(o, a, turns, x, q);
    }
  }

  /** More turns than the estimate and the queue allow. */
  lemma TooManyTurns(setup: Setup, turns: nat, ahead: nat, n: nat, q: Positive)
    requires Sound(setup.def) && ahead <= n
    requires (turns - Visited(setup) - 1 - n) as real * q > Estimate(setup)
    ensures Spans(turns, q) > Estimate(setup) + (Visited(setup) + 1) as real * q + ahead as real * q
  {
    hide Sound, Spans, Estimate, Visited;
    SpansMultiply(turns, q);
    CountsAdd(turns, Visited(setup) + 1, ahead, n, q);
  }

  lemma JustExecuted(a: Agv, setup: Setup, stopDriving: bool, hasActiveOrder: bool, q: Positive)
    requires OrderedAgv(a) && Executable(a.vehicle, setup, hasActiveOrder)
    requires !a.vehicle.isPaused || ControlsPause(setup)
    requires SoundFor(setup.def, setup.scope) && NonNegativeDurations(setup.def, setup.action)
    ensures var executed := Obey(a, ExecuteAction(setup, stopDriving, hasActiveOrder));
            var x := a.nextSerial;
            && GoesOn(executed, x) && Listed(executed, x)
            && Measure(executed, x, q) == Estimate(setup) + (Visited(setup) + 1) as real * q + Queue(executed, x, q)
            && |Ahead(executed, x)| <= |a.machines|
  {
    var command := ExecuteAction(setup, stopDriving, hasActiveOrder);
    var executed := Obey(a, command);
    ObeyAppends(a, command);
    IndexIsUnique(executed, a.nextSerial, |a.machines|);
    FreshPotential(setup, q);
    AheadIsRest(executed, a.nextSerial, |a.machines|);
  }

  lemma AheadIsRest(a: Agv, x: nat, n: nat)
    requires OrderedAgv(a) && n < |a.machines| && a.machines[n].serial == x
    ensures |Ahead(a, x)| <= n
  {
    var s := Serials(a.machines);
    assert s[n] == x;
    forall y | y in Ahead(a, x) ensures y in SetOf(s[..n]) {
      var i :| 0 <= i < |s| && s[i] == y;
      assert s[..n][i] == y;
    }
    SubsetSize(Ahead(a, x), SetOf(s[..n]));
    DistinctCount(s[..n]);
  }

  function SetOf(s: seq<nat>): set<nat> {
    set y | y in s
  }

  lemma {:induction false} DistinctCount(s: seq<nat>)
    ensures |SetOf(s)| <= |s|
  {
    if s != [] {
      DistinctCount(s[1..]);
      assert SetOf(s) == {s[0]} + SetOf(s[1..]);
    }
  }

  lemma CountsAdd(turns: nat, k: nat, ahead: nat, n: nat, q: Positive)
    requires ahead <= n
    ensures (turns - k - n) as real * q <= turns as real * q - k as real * q - ahead as real * q
  {
    ScaleCount(ahead, n, q);
    assert (turns - k - n) as real == turns as real - k as real - n as real;
  }
}
