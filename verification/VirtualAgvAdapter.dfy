/** The virtual AGV as an object: a list of machine objects and vehicle fields that its methods update. */
module VirtualAgvAdapter {
  import opened Wrappers
  import opened Actions
  import opened Geometry
  import opened ActionStateMachine
  import opened VirtualAgv
  import opened TickRound
  import opened TickFairness

  /** What a loop from index `i` on leads to: the state, and whether an exception ends it. */
  function LoopResult(a: Agv, i: nat, dt: Interval, onReport: seq<seq<Command>>): (Agv, bool) {
    (TickLoop(a, i, dt, onReport).agv, TickLoop(a, i, dt, onReport).thrown)
  }

  lemma LoopFromHere(a: Agv, i: nat, dt: Interval, onReport: seq<seq<Command>>)
    requires i < |a.machines|
    ensures LoopResult(a, i, dt, onReport) ==
            if TickMachine(a, i, dt).1 == Throws then (TickMachine(a, i, dt).0, true)
            else LoopResult(StepState(a, i, dt, onReport), i + 1, dt, StepReactions(a, i, dt, onReport))
  {
  }

  lemma NoEffectPerformed(a: Agv, self: nat)
    ensures Perform(a, self, NoEffect) == a
  {
  }

  class VirtualAgvAdapter {
    const options: Options
    var actionStateMachines: seq<VirtualActionStateMachine>
    var vehicleState: Vehicle
    var traverseContext: Option<Route>
    var batteryLowError: Option<real>
    // The controller's side: the low-battery errors it publishes, and the linked states handed to it.
    ghost var shownErrors: seq<real>
    ghost var performed: seq<Effect>
    ghost var nextSerial: nat

    ghost predicate Valid()
      reads this
    {
      && (forall i, j :: 0 <= i < j < |actionStateMachines| ==>
            actionStateMachines[i].serial < actionStateMachines[j].serial)
      && (forall i :: 0 <= i < |actionStateMachines| ==> actionStateMachines[i].serial < nextSerial)
    }

    ghost function Machines(): (ms: seq<Machine>)
      reads this, actionStateMachines
      ensures |ms| == |actionStateMachines|
      ensures forall i :: 0 <= i < |ms| ==>
                ms[i] == Machine(actionStateMachines[i].serial, actionStateMachines[i].setup, actionStateMachines[i].State())
    {
      seq(|actionStateMachines|,
          i requires 0 <= i < |actionStateMachines| reads this, actionStateMachines =>
            Machine(actionStateMachines[i].serial, actionStateMachines[i].setup, actionStateMachines[i].State()))
    }

    /** The state on values. */
    ghost function State(): Agv
      reads this, actionStateMachines
    {
      Agv(Machines(), vehicleState, traverseContext, batteryLowError, shownErrors, performed, nextSerial)
    }

    constructor (options: Options, x: real, y: real, initialBatteryCharge: real)
      ensures Valid() && this.options == options
      ensures State() == Attached(options, x, y, initialBatteryCharge)
    {
      this.options := options;
      actionStateMachines := [];
      vehicleState := Vehicle(false, false, x, y, 0.0, 0.0, initialBatteryCharge,
                              BatteryReach(options, initialBatteryCharge), false, false);
      traverseContext := None;
      batteryLowError := None;
      shownErrors := [];
      performed := [];
      nextSerial := 0;
    }

    /* Commands */

    /** Reports FAILED at once if the action cannot be executed; otherwise it reports from the next tick on. */
    method ExecuteAction(setup: Setup, stopDriving: bool, hasActiveOrder: bool) returns (report: Option<Status>)
      requires Valid()
      modifies this
      ensures Valid() && State() == Execute(old(State()), setup, stopDriving, hasActiveOrder)
      ensures report == if Executable(old(vehicleState), setup, hasActiveOrder) then None else Some(Failed)
      ensures forall i :: 0 <= i < |actionStateMachines| ==>
                actionStateMachines[i] in old(actionStateMachines) || fresh(actionStateMachines[i])
    {
      if !Executable(vehicleState, setup, hasActiveOrder) {
        return Some(Failed);
      }
      if stopDriving && vehicleState.isDriving {
        StopDriving();
      }
      PushMachine(setup, if ControlsPause(setup) then false else vehicleState.isPaused);
      return None;
    }

    method PushMachine(setup: Setup, shouldPause: bool)
      requires Valid()
      modifies this`actionStateMachines, this`nextSerial
      ensures Valid() && nextSerial == old(nextSerial) + 1
      ensures Machines() == old(Machines()) + [Machine(old(nextSerial), setup, Fresh(shouldPause))]
      ensures forall i :: 0 <= i < |actionStateMachines| ==>
                actionStateMachines[i] in old(actionStateMachines) || fresh(actionStateMachines[i])
    {
      var asm := new VirtualActionStateMachine(setup, shouldPause, nextSerial);
      actionStateMachines := actionStateMachines + [asm];
      nextSerial := nextSerial + 1;
    }

    method StopDriving()
      modifies this`vehicleState
      ensures vehicleState == VirtualAgv.StopDriving(old(vehicleState))
    {
      vehicleState := vehicleState.(isDriving := false);
      vehicleState := vehicleState.(vx := 0.0);
      vehicleState := vehicleState.(vy := 0.0);
    }

    method FindMachine(actionId: string, scope: Scope) returns (i: nat)
      ensures i <= |actionStateMachines| && i == Find(Machines(), actionId, scope)
      ensures i < |actionStateMachines| ==> RunsAction(Machines()[i], actionId, scope)
      ensures forall j :: 0 <= j < i ==> !RunsAction(Machines()[j], actionId, scope)
    {
      i := 0;
      while i < |actionStateMachines| && !actionStateMachines[i].Matches(actionId, scope)
        invariant i <= |actionStateMachines|
        invariant i + Find(Machines()[i..], actionId, scope) == Find(Machines(), actionId, scope)
      {
        assert Machines()[i..][1..] == Machines()[i + 1..];
        i := i + 1;
      }
    }

    method FinishEdgeAction(actionId: string, scope: Scope)
      requires Valid()
      modifies actionStateMachines
      ensures Valid() && State() == Ask(old(State()), actionId, scope, Event.Terminate)
    {
      var i := FindMachine(actionId, scope);
      if i < |actionStateMachines| {
        actionStateMachines[i].RequestTermination();
        assert Machines() == AskAt(old(State()), i, Event.Terminate).machines;
      }
    }

    method CancelAction(actionId: string, scope: Scope)
      requires Valid()
      modifies actionStateMachines
      ensures Valid() && State() == Ask(old(State()), actionId, scope, Event.Cancel)
    {
      var i := FindMachine(actionId, scope);
      if i < |actionStateMachines| {
        actionStateMachines[i].RequestCancel();
        assert Machines() == AskAt(old(State()), i, Event.Cancel).machines;
      }
    }

    method TraverseEdge(edge: Route)
      requires Valid()
      modifies this`traverseContext
      ensures Valid() && State() == VirtualAgv.Obey(old(State()), Command.TraverseEdge(edge))
    {
      traverseContext := Some(edge);
    }

    method StopTraverse()
      requires Valid()
      modifies this`traverseContext, this`vehicleState
      ensures Valid() && State() == VirtualAgv.Obey(old(State()), Command.StopTraverse)
    {
      traverseContext := None;
      if vehicleState.isDriving {
        StopDriving();
      }
      if vehicleState.isPaused {
        vehicleState := vehicleState.(isPaused := false);
      }
    }

    method Obey(c: Command)
      requires Valid()
      modifies this, actionStateMachines
      ensures Valid() && State() == VirtualAgv.Obey(old(State()), c)
      ensures forall i :: 0 <= i < |actionStateMachines| ==>
                actionStateMachines[i] in old(actionStateMachines) || fresh(actionStateMachines[i])
    {
      match c
      case ExecuteAction(setup, stopDriving, hasActiveOrder) =>
        var _ := ExecuteAction(setup, stopDriving, hasActiveOrder);
      case FinishEdgeAction(actionId, scope) => FinishEdgeAction(actionId, scope);
      case CancelAction(actionId, scope) => CancelAction(actionId, scope);
      case TraverseEdge(edge) => TraverseEdge(edge);
      case StopTraverse => StopTraverse();
    }

    /** What the controller commands from within one of its callbacks. */
    method React(commands: seq<Command>)
      requires Valid()
      modifies this, actionStateMachines
      ensures Valid() && State() == ObeyAll(old(State()), commands)
      ensures forall i :: 0 <= i < |actionStateMachines| ==>
                actionStateMachines[i] in old(actionStateMachines) || fresh(actionStateMachines[i])
    {
      var i := 0;
      while i < |commands|
        invariant i <= |commands| && Valid()
        invariant ObeyAll(State(), commands[i..]) == ObeyAll(old(State()), commands)
        invariant forall k :: 0 <= k < |actionStateMachines| ==>
                    actionStateMachines[k] in old(actionStateMachines) || fresh(actionStateMachines[k])
      {
        assert commands[i..][1..] == commands[i + 1..];
        Obey(commands[i]);
        i := i + 1;
      }
    }

    /* Side effects of action transitions */

    /** Pauses or unpauses all actions except the given one. */
    method SetPause(self: VirtualActionStateMachine, pause: bool)
      requires Valid()
      requires forall m :: m in actionStateMachines && m.serial == self.serial ==> m == self
      modifies actionStateMachines
      ensures Valid() && Machines() == SetPauseOfOthers(old(Machines()), self.serial, pause)
    {
      var i := 0;
      while i < |actionStateMachines|
        invariant i <= |actionStateMachines|
        invariant forall k :: 0 <= k < i ==>
                    actionStateMachines[k].State() ==
                    if actionStateMachines[k].serial != self.serial
                    then old(actionStateMachines[k].State()).(pause := pause) else old(actionStateMachines[k].State())
        invariant forall k :: i <= k < |actionStateMachines| ==>
                    actionStateMachines[k].State() == old(actionStateMachines[k].State())
      {
        if actionStateMachines[i] != self {
          if pause {
            actionStateMachines[i].RequestPause();
          } else {
            actionStateMachines[i].RequestUnpause();
          }
        }
        i := i + 1;
      }
    }

    method StartPause(self: VirtualActionStateMachine)
      requires Valid()
      requires forall m :: m in actionStateMachines && m.serial == self.serial ==> m == self
      modifies this`vehicleState, actionStateMachines
      ensures Valid() && vehicleState == PerformOnVehicle(old(vehicleState), Effect.StartPause)
      ensures Machines() == if old(vehicleState.isPaused) then old(Machines())
                            else SetPauseOfOthers(old(Machines()), self.serial, true)
    {
      if vehicleState.isPaused {
        return;
      }
      if vehicleState.isDriving {
        StopDriving();
      }
      vehicleState := vehicleState.(isPaused := true);
      SetPause(self, true);
    }

    method StopPause(self: VirtualActionStateMachine)
      requires Valid()
      requires forall m :: m in actionStateMachines && m.serial == self.serial ==> m == self
      modifies this`vehicleState, actionStateMachines
      ensures Valid() && vehicleState == PerformOnVehicle(old(vehicleState), Effect.StopPause)
      ensures Machines() == if !old(vehicleState.isPaused) then old(Machines())
                            else SetPauseOfOthers(old(Machines()), self.serial, false)
    {
      if !vehicleState.isPaused {
        return;
      }
      vehicleState := vehicleState.(isPaused := false);
      SetPause(self, false);
    }

    method StartCharging()
      modifies this`vehicleState
      ensures vehicleState == PerformOnVehicle(old(vehicleState), Effect.StartCharging)
    {
      if vehicleState.charging {
        return;
      }
      if vehicleState.isDriving {
        StopDriving();
      }
      vehicleState := vehicleState.(charging := true);
    }

    /** The `linkedState` of the status that machine `self` has entered. */
    method PerformEffect(self: VirtualActionStateMachine, effect: Effect)
      requires Valid()
      requires forall m :: m in actionStateMachines && m.serial == self.serial ==> m == self
      modifies this`vehicleState, this`performed, actionStateMachines
      ensures Valid() && State() == Perform(old(State()), self.serial, effect)
    {
      match effect {
        case NoEffect =>
        case LoadAdded => vehicleState := vehicleState.(loaded := true);
        case LoadRemoved => vehicleState := vehicleState.(loaded := false);
        case InitPosition(x, y) => vehicleState := vehicleState.(x := x, y := y);
        case StartPause => StartPause(self);
        case StopPause => StopPause(self);
        case StartCharging => StartCharging();
        case StopCharging => vehicleState := vehicleState.(charging := false);
      }
      if effect != NoEffect {
        performed := performed + [effect];
      }
      assert vehicleState == PerformOnVehicle(old(vehicleState), effect);
      assert Machines() == Perform(old(State()), self.serial, effect).machines;
    }

    /* Ticks */

    /** Splices an ended machine out of the list, which holds it at index `at`. */
    method FinalizeAction(asm: VirtualActionStateMachine, ghost at: nat)
      requires Valid() && at < |actionStateMachines| && actionStateMachines[at] == asm
      modifies this`actionStateMachines
      ensures Valid() && actionStateMachines == old(actionStateMachines[..at] + actionStateMachines[at + 1..])
    {
      var i := 0;
      while actionStateMachines[i] != asm
        invariant 0 <= i <= at
        decreases at - i
      {
        i := i + 1;
      }
      actionStateMachines := actionStateMachines[..i] + actionStateMachines[i + 1..];
    }

    /** The tick of one machine, which is spliced out if it ends. */
    method TickAlone(i: nat, realInterval: Interval) returns (outcome: Outcome)
      requires Valid() && i < |actionStateMachines|
      modifies this`actionStateMachines, actionStateMachines[i]
      ensures Valid() && State() == TickedAlone(old(State()), i, realInterval)
      ensures var m := old(Machines()[i]);
              outcome == ActionStateMachine.OnTick(m.setup, m.state, realInterval).1
      ensures forall m :: m in actionStateMachines ==> m in old(actionStateMachines)
    {
      hide ActionStateMachine.OnTick;
      ghost var before := State();
      var asm := actionStateMachines[i];
      outcome := asm.Tick(realInterval);
      assert Machines() == before.machines[i := before.machines[i].(state := asm.State())];
      if outcome.Reports? && outcome.status.Some? {
        var status := outcome.status.value;
        if status == Finished || status == Failed {
          FinalizeAction(asm, i);
          assert Machines() == RemoveAt(before.machines, i);
        }
      }
    }

    /** The tick of one machine, with its finalization and the effect of the status it enters. */
    method TickOne(i: nat, realInterval: Interval) returns (outcome: Outcome)
      requires Valid() && i < |actionStateMachines|
      modifies this, actionStateMachines
      ensures Valid() && (State(), outcome) == TickMachine(old(State()), i, realInterval)
      ensures forall m :: m in actionStateMachines ==> m in old(actionStateMachines)
    {
      hide ActionStateMachine.OnTick, TickedAlone;
      var asm := actionStateMachines[i];
      outcome := TickAlone(i, realInterval);
      assert forall k :: 0 <= k < |actionStateMachines| ==> actionStateMachines[k] in old(actionStateMachines);
      if outcome.Reports? && outcome.status.Some? {
        PerformEffect(asm, LinkedEffect(asm.setup.def, outcome.status.value));
      } else {
        NoEffectPerformed(State(), asm.serial);
      }
    }

    method StartDriving(vx: real, vy: real)
      modifies this`vehicleState
      ensures vehicleState == old(vehicleState).(isDriving := true, vx := vx, vy := vy)
    {
      vehicleState := vehicleState.(isDriving := true);
      vehicleState := vehicleState.(vx := vx);
      vehicleState := vehicleState.(vy := vy);
    }

    method UpdateBatteryState(dx: real, dy: real)
      modifies this`vehicleState
      ensures vehicleState == Discharge(options, old(vehicleState), dx, dy)
    {
      var dist := options.plane.length(dx, dy);
      var charge := vehicleState.charge - dist * 100.0 / options.batteryMaxReach;
      vehicleState := vehicleState.(charge := if charge > 0.0 then charge else 0.0);
      vehicleState := vehicleState.(reach := BatteryReach(options, vehicleState.charge));
    }

    /** Motion of one tick; tells whether the edge has been traversed. */
    method AdvanceTraverse(realInterval: Interval) returns (traversed: bool)
      requires Valid()
      modifies this`vehicleState, this`traverseContext, this`batteryLowError, this`shownErrors
      ensures Valid() && State() == VirtualAgv.AdvanceTraverse(options, old(State()), realInterval)
      ensures traversed <==> old(traverseContext).Some? && traverseContext.None?
    {
      traversed := false;
      if traverseContext.None? || vehicleState.isPaused || vehicleState.charging {
        return;
      }
      ghost var a := State();
      var tx, ty := traverseContext.value.endX - vehicleState.x, traverseContext.value.endY - vehicleState.y;
      assert (tx, ty) == ToEnd(a);
      if !vehicleState.isDriving {
        if vehicleState.charge < options.lowBatteryChargeThreshold {
          return;
        }
        var targetSpeed := TargetSpeed(options, traverseContext.value.maxSpeed);
        var heading := options.plane.heading(tx, ty);
        StartDriving(heading.0 * targetSpeed, heading.1 * targetSpeed);
        assert State() == VirtualAgv.StartDriving(options, a, heading);
      } else {
        var (dx, dy) := StepBy(vehicleState, realInterval);
        if Square(tx) + Square(ty) <= Square(dx) + Square(dy) {
          vehicleState := vehicleState.(x := traverseContext.value.endX, y := traverseContext.value.endY);
          UpdateBatteryState(tx, ty);
          StopDriving();
          traverseContext := None;
          traversed := true;
          assert State() == Arrive(options, a, tx, ty);
        } else {
          var isBatteryLow := vehicleState.charge < options.lowBatteryChargeThreshold;
          vehicleState := vehicleState.(x := vehicleState.x + dx, y := vehicleState.y + dy);
          UpdateBatteryState(dx, dy);
          if isBatteryLow {
            StopDriving();
            batteryLowError := Some(vehicleState.charge);
            shownErrors := AddError(shownErrors, vehicleState.charge);
          }
          assert State() == DriveOn(options, a, dx, dy);
        }
      }
    }

    method AdvanceBatteryCharge(tick: nat, tickInterval: Positive, realInterval: Interval)
      requires Valid()
      modifies this`vehicleState, this`batteryLowError, this`shownErrors
      ensures Valid() && State() == AdvanceCharge(options, old(State()), tick, tickInterval, realInterval)
    {
      hide ChargeRate, BatteryReach, UpdateTicks, RemoveError;
      if !vehicleState.charging || vehicleState.isPaused {
        return;
      }
      var chargeRate := ChargeRate(options);
      var raised := vehicleState.charge + chargeRate * realInterval;
      var newCharge := if raised < 100.0 then raised else 100.0;
      var isFullyCharged := newCharge == 100.0;
      vehicleState := vehicleState.(charge := newCharge, reach := BatteryReach(options, newCharge));

      var removed: Option<real> := None;
      if batteryLowError.Some? && vehicleState.charge >= options.lowBatteryChargeThreshold + 10.0 {
        removed := batteryLowError;
        batteryLowError := None;
      }
      if tick % UpdateTicks(options, tickInterval) == 0 {
        if removed.Some? {
          shownErrors := RemoveError(shownErrors, removed.value);
        }
      }
      if isFullyCharged {
        vehicleState := vehicleState.(charging := false);
      }
    }

    /** One round of the loop over the machines: a tick, and what the controller commands if it reports. */
    method TickAndReact(i: nat, realInterval: Interval, onReport: seq<seq<Command>>)
      returns (outcome: Outcome, left: seq<seq<Command>>)
      requires Valid() && i < |actionStateMachines|
      modifies this, actionStateMachines
      ensures Valid() && outcome == TickMachine(old(State()), i, realInterval).1
      ensures State() == if outcome == Throws then TickMachine(old(State()), i, realInterval).0
                         else StepState(old(State()), i, realInterval, onReport)
      ensures left == StepReactions(old(State()), i, realInterval, onReport)
      ensures forall k :: 0 <= k < |actionStateMachines| ==>
                actionStateMachines[k] in old(actionStateMachines) || fresh(actionStateMachines[k])
    {
      left := onReport;
      outcome := TickOne(i, realInterval);
      assert forall k :: 0 <= k < |actionStateMachines| ==> actionStateMachines[k] in old(actionStateMachines);
      if outcome.Reports? && left != [] {
        React(left[0]);
        left := left[1..];
      }
    }

    /** The same, seen from the rest of the loop. */
    method TickNext(i: nat, realInterval: Interval, onReport: seq<seq<Command>>)
      returns (thrown: bool, left: seq<seq<Command>>)
      requires Valid() && i < |actionStateMachines|
      modifies this, actionStateMachines
      ensures Valid()
      ensures LoopResult(old(State()), i, realInterval, onReport) ==
              if thrown then (State(), true) else LoopResult(State(), i + 1, realInterval, left)
      ensures !thrown ==> |left| < |onReport|
                          || (left == onReport && |actionStateMachines| <= |old(actionStateMachines)|)
      ensures forall k :: 0 <= k < |actionStateMachines| ==>
                actionStateMachines[k] in old(actionStateMachines) || fresh(actionStateMachines[k])
    {
      ghost var a := State();
      StepDecreases(a, i, realInterval, onReport);
      LoopFromHere(a, i, realInterval, onReport);
      var outcome;
      outcome, left := TickAndReact(i, realInterval, onReport);
      thrown := outcome == Throws;
      assert |State().machines| == |actionStateMachines|;
    }

    /** The loop over the live list of machines, which shrinks and grows while it runs. */
    method TickMachines(realInterval: Interval, onReport: seq<seq<Command>>) returns (thrown: bool)
      requires Valid()
      modifies this, actionStateMachines
      ensures Valid() && (State(), thrown) == LoopResult(old(State()), 0, realInterval, onReport)
      ensures forall k :: 0 <= k < |actionStateMachines| ==>
                actionStateMachines[k] in old(actionStateMachines) || fresh(actionStateMachines[k])
    {
      ghost var result := LoopResult(State(), 0, realInterval, onReport);
      var i, left := 0, onReport;
      thrown := false;
      while i < |actionStateMachines| && !thrown
        invariant Valid()
        invariant result == if thrown then (State(), true) else LoopResult(State(), i, realInterval, left)
        invariant forall k :: 0 <= k < |actionStateMachines| ==>
                    actionStateMachines[k] in old(actionStateMachines) || fresh(actionStateMachines[k])
        decreases !thrown, |left|, |actionStateMachines| - i
      {
        thrown, left := TickNext(i, realInterval, left);
        i := i + 1;
      }
    }

    method OnTick(tick: nat, tickInterval: Positive, realInterval: Interval, env: Reactions) returns (thrown: bool)
      requires Valid()
      modifies this, actionStateMachines
      ensures Valid()
      ensures var r := WholeTick(options, old(State()), tick, tickInterval, realInterval, env);
              State() == r.agv && thrown == r.thrown
    {
      thrown := TickMachines(realInterval, env.onReport);
      if thrown {
        return;
      }
      var traversed := AdvanceTraverse(realInterval);
      if traversed {
        React(env.onTraversed);
      }
      AdvanceBatteryCharge(tick, tickInterval, realInterval);
    }
  }
}
