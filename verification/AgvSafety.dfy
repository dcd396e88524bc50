/** What every reachable state of the virtual AGV satisfies, whatever the controller commands. */
module AgvSafety {
  import opened Actions
  import opened Geometry
  import opened ActionStateMachine
  import opened VirtualAgv

  /** A standing vehicle has no velocity; a paused or charging one stands; driving needs a route. */
  predicate StandsWhenItMust(a: Agv) {
    && (a.vehicle.isPaused || a.vehicle.charging ==> !a.vehicle.isDriving)
    && (!a.vehicle.isDriving ==> a.vehicle.vx == 0.0 && a.vehicle.vy == 0.0)
    && (a.vehicle.isDriving ==> a.route.Some?)
  }

  /** While the vehicle is paused, every live action but startPause and stopPause has been asked to pause. */
  predicate PauseReachesAll(a: Agv) {
    a.vehicle.isPaused ==>
      forall i :: 0 <= i < |a.machines| && !ControlsPause(a.machines[i].setup) ==> a.machines[i].state.pause
  }

  /** Ended actions have left the list; no machine is listed twice. */
  predicate ListsTheLiving(a: Agv) {
    && (forall i :: 0 <= i < |a.machines| ==> !Done(a.machines[i].state) && a.machines[i].serial < a.nextSerial)
    && (forall i, j :: 0 <= i < j < |a.machines| ==> a.machines[i].serial < a.machines[j].serial)
  }

  predicate BatteryInRange(o: Options, a: Agv) {
    && 0.0 <= a.vehicle.charge <= 100.0
    && a.vehicle.reach == BatteryReach(o, a.vehicle.charge)
  }

  /** Only an action that a pause does not hold back, or that has ended, starts the pause. */
  predicate Conventional(setup: Setup) {
    forall s :: LinkedEffect(setup.def, s) == StartPause ==> Terminal(s) || ControlsPause(setup)
  }

  predicate Conventions(a: Agv) {
    forall i :: 0 <= i < |a.machines| ==> Conventional(a.machines[i].setup)
  }

  predicate Safe(o: Options, a: Agv) {
    Conventions(a) && StandsWhenItMust(a) && PauseReachesAll(a) && ListsTheLiving(a) && BatteryInRange(o, a)
  }

  /* Ticks of machines */

  lemma TickKeepsPause(m: Machine, dt: real)
    requires !Done(m.state)
    ensures var (state, out) := OnTick(m.setup, m.state, dt);
            if EndsWith(out) then Done(state) else !Done(state) && state.pause == m.state.pause
  {
  }

  /** Where the k-th entry of the list comes from, and what it keeps of it. */
  lemma TickedAloneEntry(a: Agv, i: nat, dt: Interval, k: nat)
    requires ListsTheLiving(a) && i < |a.machines| && k < |TickedAlone(a, i, dt).machines|
    ensures var m' := TickedAlone(a, i, dt).machines[k];
            var j := if |TickedAlone(a, i, dt).machines| < |a.machines| && k >= i then k + 1 else k;
            && j < |a.machines| && !Done(m'.state) && m'.state.pause == a.machines[j].state.pause
            && m'.setup == a.machines[j].setup && m'.serial == a.machines[j].serial
  {
    hide OnTick;
    TickKeepsPause(a.machines[i], dt);
  }

  lemma TickedAloneSafe(o: Options, a: Agv, i: nat, dt: Interval)
    requires Safe(o, a) && i < |a.machines|
    ensures Safe(o, TickedAlone(a, i, dt))
  {
    hide OnTick, BatteryReach, Conventional, Done, ControlsPause;
    var a' := TickedAlone(a, i, dt);
    forall k | 0 <= k < |a'.machines|
      ensures !Done(a'.machines[k].state) && a'.machines[k].serial < a.nextSerial && Conventional(a'.machines[k].setup)
      ensures a.vehicle.isPaused && !ControlsPause(a'.machines[k].setup) ==> a'.machines[k].state.pause
    {
      TickedAloneEntry(a, i, dt, k);
    }
    forall k, l | 0 <= k < l < |a'.machines| ensures a'.machines[k].serial < a'.machines[l].serial {
      TickedAloneEntry(a, i, dt, k);
      TickedAloneEntry(a, i, dt, l);
    }
  }

  lemma OthersKeepLiving(machines: seq<Machine>, self: nat, pause: bool, k: nat)
    requires k < |machines|
    ensures Done(SetPauseOfOthers(machines, self, pause)[k].state) == Done(machines[k].state)
    ensures SetPauseOfOthers(machines, self, pause)[k].setup == machines[k].setup
    ensures SetPauseOfOthers(machines, self, pause)[k].serial == machines[k].serial
  {
  }

  /** The machine that performs a terminal effect is no longer listed, so all others are reached. */
  lemma PerformSafe(o: Options, a: Agv, self: nat, effect: Effect)
    requires Safe(o, a)
    requires effect == StartPause ==>
               forall i :: 0 <= i < |a.machines| && a.machines[i].serial == self ==>
                 ControlsPause(a.machines[i].setup) || a.machines[i].state.pause
    ensures Safe(o, Perform(a, self, effect))
  {
    var a' := Perform(a, self, effect);
    forall i | 0 <= i < |a.machines|
      ensures a'.machines[i].serial == a.machines[i].serial && a'.machines[i].setup == a.machines[i].setup
      ensures Done(a'.machines[i].state) == Done(a.machines[i].state)
    {
      OthersKeepLiving(a.machines, self, true, i);
      OthersKeepLiving(a.machines, self, false, i);
    }
  }

  lemma TickMachineSafe(o: Options, a: Agv, i: nat, dt: Interval)
    requires Safe(o, a)
    ensures Safe(o, TickMachine(a, i, dt).0)
  {
    if i < |a.machines| {
      TickedAloneSafe(o, a, i, dt);
      var m := a.machines[i];
      var out := OnTick(m.setup, m.state, dt).1;
      var ticked := TickedAlone(a, i, dt);
      var effect := EffectOf(a, i, dt);
      if effect == StartPause {
        forall k | 0 <= k < |ticked.machines| && ticked.machines[k].serial == m.serial
          ensures ControlsPause(ticked.machines[k].setup)
        {
          assert Conventional(m.setup);
        }
      }
      PerformSafe(o, ticked, m.serial, effect);
    }
  }

  /* Commands */

  lemma RequestKeeps(m: Machine, e: Event)
    requires e.Cancel? || e.Terminate?
    ensures var state := ActionStateMachine.Step(m.setup, m.state, e).0;
            Done(state) == Done(m.state) && state.pause == m.state.pause
  {
  }

  lemma RequestSafe(o: Options, a: Agv, actionId: string, scope: Scope, e: Event)
    requires Safe(o, a) && (e.Cancel? || e.Terminate?)
    ensures Safe(o, Ask(a, actionId, scope, e))
  {
    var i := Find(a.machines, actionId, scope);
    if i < |a.machines| {
      RequestKeeps(a.machines[i], e);
    }
  }

  predicate ConventionalCommand(c: Command) {
    c.ExecuteAction? ==> Conventional(c.setup)
  }

  lemma ObeySafe(o: Options, a: Agv, c: Command)
    requires Safe(o, a) && ConventionalCommand(c)
    ensures Safe(o, Obey(a, c))
  {
    match c
    case FinishEdgeAction(actionId, scope) => RequestSafe(o, a, actionId, scope, Terminate);
    case CancelAction(actionId, scope) => RequestSafe(o, a, actionId, scope, Cancel);
    case _ =>
  }

  /* Motion and battery */

  lemma DrainSigns(o: Options, d: real, drain: real)
    requires d >= 0.0 && drain == Drain(o, d)
    ensures drain >= 0.0
  {
  }

  lemma DischargeFalls(o: Options, v: Vehicle, dx: real, dy: real)
    requires Euclidean(o.plane) && 0.0 <= v.charge
    ensures 0.0 <= Discharge(o, v, dx, dy).charge <= v.charge
  {
    assert Measures(o.plane, dx, dy);
    var distance := o.plane.length(dx, dy);
    DrainSigns(o, distance, Drain(o, distance));
  }

  lemma ChargeOnlyFalls(o: Options, a: Agv, dt: Interval)
    requires Euclidean(o.plane) && 0.0 <= a.vehicle.charge
    ensures 0.0 <= AdvanceTraverse(o, a, dt).vehicle.charge <= a.vehicle.charge
  {
    if MayDrive(a) {
      var (tx, ty) := ToEnd(a);
      var (dx, dy) := StepBy(a.vehicle, dt);
      DischargeFalls(o, a.vehicle.(x := a.route.value.endX, y := a.route.value.endY), tx, ty);
      DischargeFalls(o, a.vehicle.(x := a.vehicle.x + dx, y := a.vehicle.y + dy), dx, dy);
    }
  }

  lemma AdvanceTraverseSafe(o: Options, a: Agv, dt: Interval)
    requires Safe(o, a) && Euclidean(o.plane)
    ensures Safe(o, AdvanceTraverse(o, a, dt))
  {
    ChargeOnlyFalls(o, a, dt);
  }

  lemma AdvanceChargeSafe(o: Options, a: Agv, tick: nat, tickInterval: Positive, dt: Interval)
    requires Safe(o, a)
    ensures Safe(o, AdvanceCharge(o, a, tick, tickInterval, dt))
  {
    var gain := ChargeRate(o) * dt;
    assert gain >= 0.0;
  }

  /* Every run */

  predicate ConventionalMoves(moves: seq<Move>) {
    forall m :: m in moves && m.Commanded? ==> ConventionalCommand(m.command)
  }

  /** Every state reached by any interleaving of commands, machine ticks, driving and charging is safe. */
  lemma {:induction false} RunsAreSafe(o: Options, a: Agv, moves: seq<Move>)
    requires Safe(o, a) && Euclidean(o.plane) && ConventionalMoves(moves)
    ensures Safe(o, Play(o, a, moves))
    decreases |moves|
  {
    if moves != [] {
      var m := moves[0];
      match m {
        case Commanded(c) => ObeySafe(o, a, c);
        case Ticked(i, dt) => TickMachineSafe(o, a, i, dt);
        case Driven(dt) => AdvanceTraverseSafe(o, a, dt);
        case Charged(tick, tickInterval, dt) => AdvanceChargeSafe(o, a, tick, tickInterval, dt);
        case OrderAccepted(_) =>
      }
      RunsAreSafe(o, Make(o, a, m), moves[1..]);
    }
  }

  /** In particular from the state that `attach` creates. */
  lemma ReachableStatesAreSafe(o: Options, x: real, y: real, charge: real)
    requires Euclidean(o.plane) && 0.0 <= charge <= 100.0
    ensures forall moves :: ConventionalMoves(moves) ==> Safe(o, Play(o, Attached(o, x, y, charge), moves))
  {
    forall moves | ConventionalMoves(moves) ensures Safe(o, Play(o, Attached(o, x, y, charge), moves)) {
      RunsAreSafe(o, Attached(o, x, y, charge), moves);
    }
  }

  /** The built-in actions follow the conventions. */
  lemma BuiltInsAreConventional(action: Action, scope: Scope)
    requires BuiltIn(action, scope).Some?
    ensures Conventional(Setup(action, scope, BuiltIn(action, scope).value))
  {
  }
}
