/** What the commands of the controller and the effects of actions do to the virtual AGV. */
module AgvCommands {
  import opened Wrappers
  import opened Actions
  import opened Geometry
  import opened ActionStateMachine
  import opened VirtualAgv
  import opened TickRound

  /** The vehicle that `attach` sets up. */
  lemma AttachedState(o: Options, x: real, y: real, charge: real)
    ensures var a := Attached(o, x, y, charge);
            var v := a.vehicle;
            && (v.x, v.y, v.vx, v.vy, v.charge) == (x, y, 0.0, 0.0, charge)
            && !(v.isDriving || v.isPaused || v.charging || v.loaded)
            && v.reach as real <= o.batteryMaxReach * charge / 100.0 < v.reach as real + 1.0
            && (a.machines, a.route, a.lowError, a.shownErrors) == ([], None, None, [])
  {
  }

  /* Requests to actions */

  /** The first listed machine that runs the action. */
  predicate FirstRunning(a: Agv, k: nat, actionId: string, scope: Scope) {
    && k < |a.machines| && RunsAction(a.machines[k], actionId, scope)
    && forall j :: 0 <= j < k ==> !RunsAction(a.machines[j], actionId, scope)
  }

  /** The request is pending afterwards if it was not answered and the action admits it. */
  function Asking(request: Request, admitted: bool): Request {
    if request == NotAsked && admitted then Asked else request
  }

  /** Cancelling an action asks the first machine that runs it, wherever it is listed, and changes nothing else. */
  lemma CancelAsksFirst(a: Agv, actionId: string, scope: Scope, k: nat)
    requires FirstRunning(a, k, actionId, scope)
    ensures var m := a.machines[k];
            var asked := m.state.(cancel := Asking(m.state.cancel, m.setup.def.cancelable && scope != InstantScope));
            Obey(a, CancelAction(actionId, scope)) == a.(machines := a.machines[k := m.(state := asked)])
  {
    FirstIsFound(a, actionId, scope, k);
  }

  /** So does finishing an edge action. */
  lemma FinishAsksFirst(a: Agv, actionId: string, scope: Scope, k: nat)
    requires FirstRunning(a, k, actionId, scope)
    ensures var m := a.machines[k];
            var asked := m.state.(terminate := Asking(m.state.terminate, scope == EdgeScope));
            Obey(a, FinishEdgeAction(actionId, scope)) == a.(machines := a.machines[k := m.(state := asked)])
  {
    FirstIsFound(a, actionId, scope, k);
  }

  lemma FirstIsFound(a: Agv, actionId: string, scope: Scope, k: nat)
    requires FirstRunning(a, k, actionId, scope)
    ensures Find(a.machines, actionId, scope) == k
  {
  }

  /** What runs nowhere cannot be asked. */
  lemma UnknownIsIgnored(a: Agv, actionId: string, scope: Scope)
    requires forall j :: 0 <= j < |a.machines| ==> !RunsAction(a.machines[j], actionId, scope)
    ensures Obey(a, CancelAction(actionId, scope)) == a && Obey(a, FinishEdgeAction(actionId, scope)) == a
  {
  }

  /* Execution */

  /** When the built-in actions can be executed. */
  predicate Permitted(v: Vehicle, actionType: string, scope: Scope, hasActiveOrder: bool) {
    && (actionType == "pick" ==> !v.loaded) && (actionType == "drop" ==> v.loaded)
    && (actionType == "startPause" ==> !v.isPaused) && (actionType == "stopPause" ==> v.isPaused)
    && (actionType == "startCharging" ==> !v.charging && (scope == NodeScope || !hasActiveOrder))
    && (actionType == "stopCharging" ==> v.charging)
  }

  /**
   Executing a built-in action: refused unless permitted; otherwise the vehicle stops if that is demanded, and
   one machine is listed last that has not started, and is to be paused if the vehicle is paused.
   */
  lemma ExecutesExactly(a: Agv, action: Action, scope: Scope, stopDriving: bool, hasActiveOrder: bool)
    requires BuiltIn(action, scope).Some?
    ensures var setup := Setup(action, scope, BuiltIn(action, scope).value);
            var held := a.vehicle.isPaused && action.actionType !in {"startPause", "stopPause"};
            var stops := stopDriving && a.vehicle.isDriving;
            Obey(a, ExecuteAction(setup, stopDriving, hasActiveOrder)) ==
            if !Permitted(a.vehicle, action.actionType, scope, hasActiveOrder) then a
            else a.(vehicle := if stops then a.vehicle.(isDriving := false, vx := 0.0, vy := 0.0) else a.vehicle,
                    machines := a.machines + [Machine(a.nextSerial, setup, Fresh(held))], nextSerial := a.nextSerial + 1)
  {
  }

  /** `stopTraverse` takes the route away; the vehicle stands, unpaused, and its actions are as before. */
  lemma TraverseStops(a: Agv)
    ensures var a' := Obey(a, StopTraverse);
            && a'.route == None && !a'.vehicle.isDriving && !a'.vehicle.isPaused && a'.machines == a.machines
            && (a'.vehicle.x, a'.vehicle.y, a'.vehicle.charge) == (a.vehicle.x, a.vehicle.y, a.vehicle.charge)
  {
  }

  /* Effects */

  /** A pause stops the vehicle and reaches all actions but its own. */
  lemma PauseHoldsAll(a: Agv, self: nat)
    requires !a.vehicle.isPaused
    ensures var a' := Perform(a, self, Effect.StartPause);
            && a'.vehicle.isPaused && !a'.vehicle.isDriving && |a'.machines| == |a.machines|
            && forall i :: 0 <= i < |a.machines| && a.machines[i].serial != self ==>
                 a'.machines[i] == a.machines[i].(state := a.machines[i].state.(pause := true))
  {
  }

  /** Its end resumes them. */
  lemma PauseEndsForAll(a: Agv, self: nat)
    requires a.vehicle.isPaused
    ensures var a' := Perform(a, self, Effect.StopPause);
            && !a'.vehicle.isPaused && |a'.machines| == |a.machines|
            && forall i :: 0 <= i < |a.machines| && a.machines[i].serial != self ==>
                 a'.machines[i] == a.machines[i].(state := a.machines[i].state.(pause := false))
  {
  }

  /** Entering a status, whatever it is, does to the vehicle what the definition links with it. */
  lemma EnteredStatusActs(a: Agv, i: nat, dt: Interval, s: Status)
    requires i < |a.machines| && TickMachine(a, i, dt).1 == Reports(Some(s))
    ensures var (a', effect) := (TickMachine(a, i, dt).0, LinkedEffect(a.machines[i].setup.def, s));
            && a'.vehicle == PerformOnVehicle(a.vehicle, effect)
            && a'.performed == if effect == NoEffect then a.performed else a.performed + [effect]
  {
  }

  /** What an instant action without duration does to the vehicle as soon as it is ticked. */
  function InstantEffect(v: Vehicle, action: Action): Vehicle {
    match action.actionType
    case "startPause" => v.(isPaused := true, isDriving := false, vx := 0.0, vy := 0.0)
    case "stopPause" => v.(isPaused := false)
    case "initPosition" =>
      var x, y := ParameterValue(action.parameters, "x"), ParameterValue(action.parameters, "y");
      if x.Some? && y.Some? then v.(x := x.value, y := y.value) else v
    case _ => v
  }

  lemma ImmediateEnd(a: Agv, n: nat, dt: Interval)
    requires n == |a.machines| - 1 && a.machines[n].state == Fresh(false)
    requires a.machines[n].setup.def.onInit == Finished
    ensures TickMachine(a, n, dt).0 ==
            Perform(a.(machines := a.machines[..n]), a.machines[n].serial, LinkedEffect(a.machines[n].setup.def, Finished))
  {
    assert a.machines[n + 1..] == [];
    assert RemoveAt(a.machines, n) == a.machines[..n];
  }

  /**
   startPause, stopPause and initPosition, executed while they are permitted on a vehicle that stands when it is
   paused, end with their first tick, and have done what they are for.
   */
  lemma InstantActionTakesEffect(o: Options, a: Agv, action: Action, dt: Interval)
    requires action.actionType in {"startPause", "stopPause", "initPosition"} && BuiltIn(action, InstantScope).Some?
    requires Permitted(a.vehicle, action.actionType, InstantScope, false)
    requires action.actionType == "initPosition" ==> !a.vehicle.isPaused
    requires !a.vehicle.isDriving ==> a.vehicle.vx == 0.0 && a.vehicle.vy == 0.0
    ensures var setup := Setup(action, InstantScope, BuiltIn(action, InstantScope).value);
            var run := [Commanded(ExecuteAction(setup, false, false)), Ticked(|a.machines|, dt)];
            var a' := Play(o, a, run);
            a'.vehicle == InstantEffect(a.vehicle, action) && |a'.machines| == |a.machines|
  {
    hide TickMachine, BuiltIn;
    var setup := Setup(action, InstantScope, BuiltIn(action, InstantScope).value);
    ImmediateDefinitions(action);
    ExecutesExactly(a, action, InstantScope, false, false);
    var a1 := Obey(a, ExecuteAction(setup, false, false));
    var n := |a.machines|;
    ImmediateEnd(a1, n, dt);
    assert a1.machines[..n] == a.machines;
    var execute := Commanded(ExecuteAction(setup, false, false));
    PlayOne(o, a, execute, [Ticked(n, dt)]);
    PlayOne(o, a1, Ticked(n, dt), []);
    assert [execute] + [Ticked(n, dt)] == [execute, Ticked(n, dt)] && [Ticked(n, dt)] + [] == [Ticked(n, dt)];
  }

  lemma ImmediateDefinitions(action: Action)
    requires action.actionType in {"startPause", "stopPause", "initPosition"} && BuiltIn(action, InstantScope).Some?
    ensures var def := BuiltIn(action, InstantScope).value;
            && def.onInit == Finished
            && (action.actionType == "initPosition" ==>
                  ParameterValue(action.parameters, "x").Some? && ParameterValue(action.parameters, "y").Some?)
            && LinkedEffect(def, Finished) ==
               if action.actionType == "startPause" then Effect.StartPause
               else if action.actionType == "stopPause" then Effect.StopPause
               else InitPosition(ParameterValue(action.parameters, "x").value, ParameterValue(action.parameters, "y").value)
  {
  }

  /* Battery */

  /** A full battery lasts for exactly the distance that the vehicle is configured to reach. */
  lemma FullBatteryReaches(o: Options, distance: real)
    requires distance >= 0.0
    ensures ChargeAfter(o, 100.0, distance) == 0.0 <==> distance >= o.batteryMaxReach
    ensures distance <= o.batteryMaxReach ==>
              o.batteryMaxReach * ChargeAfter(o, 100.0, distance) == 100.0 * (o.batteryMaxReach - distance)
  {
    var drain, reach := Drain(o, distance), o.batteryMaxReach;
    assert drain * reach == distance * 100.0;
    if distance < reach {
      var p := MulPositive(reach, reach - distance);
      assert drain < 100.0 by { SmallerQuotient(distance, reach, drain); }
    } else {
      assert drain >= 100.0 by { SmallerQuotient(distance, reach, drain); }
    }
    assert reach * (100.0 - drain) == 100.0 * (reach - distance);
  }

  lemma SmallerQuotient(distance: real, reach: real, drain: real)
    requires reach > 0.0 && drain * reach == distance * 100.0
    ensures drain < 100.0 <==> distance < reach
  {
    if drain < 100.0 {
      var p := MulPositive(reach, 100.0 - drain);
      assert p == 100.0 * reach - drain * reach;
    } else if drain > 100.0 {
      var p := MulPositive(reach, drain - 100.0);
      assert p == drain * reach - 100.0 * reach;
    }
  }

  /** The charge is reported in steps of one percent: after the least number of ticks that raise it by that. */
  lemma ReportsEachPercent(o: Options, tickInterval: Positive, n: nat)
    ensures n as real * (ChargeRate(o) * tickInterval / 1000.0) >= 1.0 <==> n >= UpdateTicks(o, tickInterval)
  {
    hide ChargeRate;
    var rate := ChargeRate(o);
    var ticks := 1000.0 / rate / tickInterval;
    var gain := rate * tickInterval / 1000.0;
    TicksOfPercent(rate, tickInterval, ticks, gain);
    ScaleOrder(gain, n as real, ticks);
    assert n as real >= ticks <==> n >= Ceil(ticks);
  }

  lemma TicksOfPercent(rate: real, tickInterval: real, ticks: real, gain: real)
    requires rate > 0.0 && tickInterval > 0.0
    requires ticks == 1000.0 / rate / tickInterval && gain == rate * tickInterval / 1000.0
    ensures ticks * gain == 1.0 && gain > 0.0
  {
    var p := MulPositive(rate, tickInterval);
    var q := 1000.0 / rate;
    assert q * rate == 1000.0 && ticks * tickInterval == q;
    assert ticks * tickInterval * rate == 1000.0;
    assert ticks * (rate * tickInterval) == 1000.0;
  }

  lemma ScaleOrder(gain: real, a: real, b: real)
    requires gain > 0.0
    ensures a * gain < b * gain <==> a < b
  {
    if a < b {
      var p := MulPositive(gain, b - a);
      assert p == b * gain - a * gain;
    } else if b < a {
      var p := MulPositive(gain, a - b);
      assert p == a * gain - b * gain;
    }
  }
}
