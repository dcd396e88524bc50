/** Two runs with the built-in actions after which a low-battery error stays published. */
module LowBatteryRuns {
  import opened Wrappers
  import opened Actions
  import opened Geometry
  import opened ActionStateMachine
  import opened VirtualAgv
  import opened TickRound
  import opened LowBattery

  predicate Defaults(o: Options) {
    && o.vehicleSpeed == 2.0 && o.batteryMaxReach == 28800.0
    && o.fullBatteryChargeTime == 1.0 && o.lowBatteryChargeThreshold == 1.0
  }

  lemma PlayPair(o: Options, a: Agv, m: Move, n: Move)
    ensures Play(o, a, [m, n]) == Make(o, Make(o, a, m), n)
  {
    PlayOne(o, a, m, [n]);
    PlayOne(o, Make(o, a, m), n, []);
    assert [m] + [n] == [m, n] && [n] + [] == [n];
  }

  /* Driving to the east */

  const EDGE := Route(100.0, 0.0, None)

  function Standing(o: Options, x: real, charge: real, charging: bool): Vehicle {
    Vehicle(false, false, x, 0.0, 0.0, 0.0, charge, BatteryReach(o, charge), charging, false)
  }

  function Moving(o: Options, x: real, charge: real): Vehicle {
    Vehicle(true, false, x, 0.0, 2.0, 0.0, charge, BatteryReach(o, charge), false, false)
  }

  lemma EastwardMeasures(o: Options, distance: real)
    requires Euclidean(o.plane) && distance > 0.0
    ensures o.plane.heading(distance, 0.0) == (1.0, 0.0) && o.plane.length(distance, 0.0) == distance
  {
    hide Euclidean;
    MeasureScaled(o.plane, distance, 1.0, 0.0, distance, 0.0);
  }

  lemma Starts(o: Options, a: Agv, x: real, charge: real)
    requires Defaults(o) && Euclidean(o.plane) && a.route == Some(EDGE) && x < 100.0 && charge >= 1.0
    requires a.vehicle == Standing(o, x, charge, false)
    ensures Make(o, a, Driven(0.2)) == a.(vehicle := Moving(o, x, charge))
  {
    EastwardMeasures(o, 100.0 - x);
  }

  lemma DrainOfStep(o: Options, charge: real, dt: Interval)
    requires Defaults(o) && charge >= 0.5 && dt <= 2.0
    ensures ChargeAfter(o, charge, 2.0 * dt) == charge - dt / 144.0
  {
    assert Drain(o, 2.0 * dt) == dt / 144.0;
  }

  lemma ShortStep(a: real, b: real)
    requires a > b >= 0.0
    ensures Square(a) + Square(0.0) > Square(b) + Square(0.0)
  {
    var d := a - b;
    assert d * d > 0.0 && b * d >= 0.0;
    assert Square(a) == Square(b) + 2.0 * (b * d) + d * d;
  }

  function Stepped(o: Options, a: Agv, x: real, charge: real, low: bool): Agv {
    if low
    then a.(vehicle := Standing(o, x, charge, false), lowError := Some(charge),
            shownErrors := AddError(a.shownErrors, charge))
    else a.(vehicle := Moving(o, x, charge))
  }

  lemma Steps(o: Options, a: Agv, x: real, charge: real, dt: Interval)
    requires Defaults(o) && Euclidean(o.plane) && a.route == Some(EDGE) && x + 2.0 * dt < 100.0
    requires charge >= 0.5 && 0.0 < dt <= 2.0 && a.vehicle == Moving(o, x, charge)
    ensures Make(o, a, Driven(dt)) == Stepped(o, a, x + 2.0 * dt, charge - dt / 144.0, charge < 1.0)
  {
    hide Euclidean, Square, ChargeAfter, BatteryReach;
    EastwardMeasures(o, 2.0 * dt);
    DrainOfStep(o, charge, dt);
    ShortStep(100.0 - x, 2.0 * dt);
  }

  /* Actions that start or stop charging */

  function Charger(actionType: string, scope: Scope, duration: real): Setup
    requires BuiltIn(Action("id", actionType, [("duration", duration)]), scope).Some?
  {
    var action := Action("id", actionType, [("duration", duration)]);
    Setup(action, scope, BuiltIn(action, scope).value)
  }

  /** A node action that goes on while the vehicle leaves the node. */
  const NODE_CHARGING := Charger("startCharging", NodeScope, 0.6)

  const START_CHARGING := Charger("startCharging", InstantScope, 0.2)

  const STOP_CHARGING := Charger("stopCharging", InstantScope, 0.2)

  predicate IsCharger(setup: Setup, duration: real, effect: Effect) {
    && setup.def in {TimedDefinition(IfChargeable, 1.0, effect), TimedDefinition(IfCharging, 1.0, effect)}
    && setup.action.parameters == [("duration", duration)]
  }

  lemma BuiltInChargers()
    ensures BuiltIn(START_CHARGING.action, START_CHARGING.scope) == Some(START_CHARGING.def)
    ensures BuiltIn(NODE_CHARGING.action, NODE_CHARGING.scope) == Some(NODE_CHARGING.def)
    ensures BuiltIn(STOP_CHARGING.action, STOP_CHARGING.scope) == Some(STOP_CHARGING.def)
    ensures IsCharger(START_CHARGING, 0.2, Effect.StartCharging) && IsCharger(NODE_CHARGING, 0.6, Effect.StartCharging)
    ensures IsCharger(STOP_CHARGING, 0.2, StopCharging)
  {
  }

  function Running(serial: nat, setup: Setup, spent: real): Machine {
    var durations := Fresh(false).spent[Status.Running := spent];
    Machine(serial, setup, Fresh(false).(status := Some(Status.Running), spent := durations))
  }

  lemma Executed(o: Options, a: Agv, setup: Setup, hasActiveOrder: bool)
    requires a.machines == [] && !a.vehicle.isPaused && Executable(a.vehicle, setup, hasActiveOrder)
    ensures Make(o, a, Commanded(ExecuteAction(setup, false, hasActiveOrder))) ==
            a.(machines := [Machine(a.nextSerial, setup, Fresh(false))], nextSerial := a.nextSerial + 1)
  {
  }

  lemma Initialized(o: Options, a: Agv, serial: nat, setup: Setup, duration: real, effect: Effect)
    requires IsCharger(setup, duration, effect) && a.machines == [Machine(serial, setup, Fresh(false))]
    ensures Make(o, a, Ticked(0, 0.2)) == a.(machines := [Running(serial, setup, 0.0)])
  {
    var m := a.machines[0];
    assert OnTick(setup, m.state, 0.2).0.spent == Fresh(false).spent[Status.Running := 0.0];
    assert EffectOf(a, 0, 0.2) == NoEffect;
  }

  function Worked(a: Agv, serial: nat, setup: Setup, spent: real, ended: bool, effect: Effect): Agv {
    if ended
    then a.(machines := [], vehicle := PerformOnVehicle(a.vehicle, effect), performed := a.performed + [effect])
    else a.(machines := [Running(serial, setup, spent)])
  }

  lemma Works(o: Options, a: Agv, serial: nat, setup: Setup, duration: real, effect: Effect, spent: real)
    requires IsCharger(setup, duration, effect) && effect in {Effect.StartCharging, StopCharging}
    requires a.machines == [Running(serial, setup, spent)]
    ensures Make(o, a, Ticked(0, 0.2)) == Worked(a, serial, setup, spent + 0.2, spent + 0.2 >= duration, effect)
  {
    var m := a.machines[0];
    assert ParameterValue(setup.action.parameters, "duration") == Some(duration);
    if spent + 0.2 < duration {
      assert OnTick(setup, m.state, 0.2).0.spent == Fresh(false).spent[Status.Running := spent + 0.2];
      assert EffectOf(a, 0, 0.2) == NoEffect;
    } else {
      assert EffectOf(a, 0, 0.2) == effect;
    }
  }

  /* Charging up */

  lemma Charges(o: Options, a: Agv, x: real, charge: real, t: nat)
    requires Defaults(o) && a.lowError.Some? && charge <= 10.0 && a.vehicle == Standing(o, x, charge, true)
    ensures Make(o, a, Charged(t, 200.0, 0.2)) == a.(vehicle := Standing(o, x, charge + 1.0 / 180.0, true))
  {
    assert ChargeRate(o) == 1.0 / 36.0;
  }

  lemma ChargingTick(o: Options, a: Agv, t: nat)
    requires Defaults(o) && a.vehicle.charging && !a.vehicle.isPaused && a.vehicle.charge <= 11.0
    ensures var a' := Make(o, a, Charged(t, 200.0, 0.2));
            && a'.vehicle.charge == a.vehicle.charge + 1.0 / 180.0 && a'.vehicle.charging && !a'.vehicle.isPaused
    ensures ReportsCharge(o, Charged(t, 200.0, 0.2)) <==> t % 180 == 0
  {
    assert ChargeRate(o) == 1.0 / 36.0;
    assert UpdateTicks(o, 200.0) == 180;
  }

  /** The order is cancelled, and the vehicle is told to charge. */
  const CHARGING: seq<Move> :=
    [Commanded(StopTraverse), Commanded(ExecuteAction(START_CHARGING, false, false))] + [Ticked(0, 0.2), Ticked(0, 0.2)]

  lemma TraverseStopped(o: Options, a: Agv, x: real, charge: real)
    requires a.vehicle == Standing(o, x, charge, false)
    ensures Make(o, a, Commanded(StopTraverse)) == a.(route := None)
  {
  }

  lemma StartsCharging(o: Options, a: Agv, x: real, charge: real)
    requires a.machines == [] && a.vehicle == Standing(o, x, charge, false)
    ensures Play(o, a, CHARGING) ==
            a.(vehicle := Standing(o, x, charge, true), route := None,
               performed := a.performed + [Effect.StartCharging], nextSerial := a.nextSerial + 1)
  {
    hide Make, Play;
    var execute := Commanded(ExecuteAction(START_CHARGING, false, false));
    BuiltInChargers();
    TraverseStopped(o, a, x, charge);
    var a1 := a.(route := None);
    Executed(o, a1, START_CHARGING, false);
    var a2 := Make(o, a1, execute);
    Initialized(o, a2, a.nextSerial, START_CHARGING, 0.2, Effect.StartCharging);
    var a3 := Make(o, a2, Ticked(0, 0.2));
    Works(o, a3, a.nextSerial, START_CHARGING, 0.2, Effect.StartCharging, 0.0);
    PlayPair(o, a, Commanded(StopTraverse), execute);
    PlayPair(o, a2, Ticked(0, 0.2), Ticked(0, 0.2));
    PlayConcat(o, a, [Commanded(StopTraverse), execute], [Ticked(0, 0.2), Ticked(0, 0.2)]);
  }

  /** Ticks at the default rate of five a second, from tick number `t` on. */
  function ChargingTicks(t: nat, n: nat): seq<Move>
    decreases n
  {
    if n == 0 then [] else [Charged(t, 200.0, 0.2)] + ChargingTicks(t + 1, n - 1)
  }

  lemma {:induction false} ChargingNeverStops(o: Options, a: Agv, t: nat, n: nat, error: real)
    ensures NeverQuotes(o, a, ChargingTicks(t, n), error) && !AcceptsOrder(ChargingTicks(t, n))
    decreases n
  {
    hide Make;
    if n > 0 {
      assert ChargingTicks(t, n)[1..] == ChargingTicks(t + 1, n - 1);
      FirstOrLater(ChargingTicks(t, n));
      ChargingNeverStops(o, Make(o, a, Charged(t, 200.0, 0.2)), t + 1, n - 1, error);
    }
  }

  lemma {:induction false} ChargingNeverLowers(o: Options, a: Agv, t: nat, n: nat)
    requires a.vehicle.charge <= 100.0
    ensures a.vehicle.charge <= Play(o, a, ChargingTicks(t, n)).vehicle.charge <= 100.0
    decreases n
  {
    if n > 0 {
      var a' := Make(o, a, Charged(t, 200.0, 0.2));
      var gain := ChargeRate(o) * 0.2;
      assert gain >= 0.0;
      assert ChargingTicks(t, n)[1..] == ChargingTicks(t + 1, n - 1);
      ChargingNeverLowers(o, a', t + 1, n - 1);
    }
  }

  /** After `k` ticks the charge is still a little below eleven, and the next one recovers it. */
  lemma {:induction false} RecoversAt(o: Options, a: Agv, t: nat, n: nat, k: nat, little: real)
    requires Defaults(o) && a.vehicle.charging && !a.vehicle.isPaused && 0.0 < little <= 1.0 / 180.0
    requires n > k && a.vehicle.charge == 11.0 - k as real / 180.0 - little
    ensures ReleasedInTime(o, a, ChargingTicks(t, n)) <==> (t + k) % 180 == 0
    ensures Play(o, a, ChargingTicks(t, n)).vehicle.charge >= 11.0
    decreases n
  {
    hide Make, UpdateTicks, ReportsCharge;
    var m := Charged(t, 200.0, 0.2);
    var a' := Make(o, a, m);
    ChargingTick(o, a, t);
    assert ChargingTicks(t, n)[1..] == ChargingTicks(t + 1, n - 1);
    if k > 0 {
      assert a'.vehicle.charge == 11.0 - (k - 1) as real / 180.0 - little;
      RecoversAt(o, a', t + 1, n - 1, k - 1, little);
    } else {
      ChargingNeverLowers(o, a', t + 1, n - 1);
    }
  }

  /* A recovery that is not reported */

  /** The charge that the first error quotes. */
  const LOW := 1.0 - 1.0 / 360.0

  /** The vehicle starts with a charge at the threshold, makes two steps, and stops with a low battery. */
  const DISCHARGING: seq<Move> := [Commanded(TraverseEdge(EDGE)), Driven(0.2)] + [Driven(0.2), Driven(0.2)]

  lemma Discharged(o: Options)
    requires Defaults(o) && Euclidean(o.plane)
    ensures Play(o, Attached(o, 0.0, 0.0, 1.0), DISCHARGING) ==
            Agv([], Standing(o, 0.8, LOW, false), Some(EDGE), Some(LOW), [LOW], [], 0)
  {
    hide Play, Euclidean, BatteryReach, AdvanceTraverse;
    var a0 := Attached(o, 0.0, 0.0, 1.0);
    var a1 := Make(o, a0, Commanded(TraverseEdge(EDGE)));
    Starts(o, a1, 0.0, 1.0);
    var a2 := Make(o, a1, Driven(0.2));
    Steps(o, a2, 0.0, 1.0, 0.2);
    Steps(o, Make(o, a2, Driven(0.2)), 0.4, 1.0 - 0.2 / 144.0, 0.2);
    PlayPair(o, a0, Commanded(TraverseEdge(EDGE)), Driven(0.2));
    PlayPair(o, a2, Driven(0.2), Driven(0.2));
    PlayConcat(o, a0, [Commanded(TraverseEdge(EDGE)), Driven(0.2)], [Driven(0.2), Driven(0.2)]);
  }

  /**
   From `attach` with the default options but for the initial charge, which is at the threshold: by tick 1805
   the charge is ten percent above the threshold, and however long the vehicle goes on charging, the error
   stays published.
   */
  lemma RecoveredErrorStaysPublished(o: Options, n: nat)
    requires Defaults(o) && Euclidean(o.plane) && n > 1800
    ensures var a := Play(o, Attached(o, 0.0, 0.0, 1.0), DISCHARGING + CHARGING + ChargingTicks(5, n));
            a.vehicle.charge >= o.lowBatteryChargeThreshold + 10.0 && LOW in a.shownErrors
  {
    hide LOW, DISCHARGING, CHARGING, BatteryReach;
    var a0 := Attached(o, 0.0, 0.0, 1.0);
    Discharged(o);
    var a1 := Play(o, a0, DISCHARGING);
    StartsCharging(o, a1, 0.8, LOW);
    PlayConcat(o, a0, DISCHARGING, CHARGING);
    PlayConcat(o, a0, DISCHARGING + CHARGING, ChargingTicks(5, n));
    var a2 := Play(o, a1, CHARGING);
    LowIs();
    RecoversAt(o, a2, 5, n, 1800, 1.0 / 360.0);
    ChargingNeverStops(o, a2, 5, n, LOW);
    ErrorGoneExactlyIfReleased(o, a2, ChargingTicks(5, n), LOW);
  }

  lemma LowIs()
    ensures LOW == 11.0 - 1800.0 / 180.0 - 1.0 / 360.0
    ensures LOWER == 11.0 - 1800.0 / 180.0 - 1.0 / 288.0
  {
  }

  /* Two stops before the recovery */

  /** The charge that the second error quotes. */
  const LOWER := 1.0 - 1.0 / 288.0

  const TICK: seq<Move> := [Ticked(0, 0.2), Driven(0.2)]

  const LEAVING: seq<Move> := [Commanded(ExecuteAction(NODE_CHARGING, false, true)), Commanded(TraverseEdge(EDGE))]

  /** The action starts the charging when the vehicle has stopped. */
  const BRIEF: seq<Move> :=
    [Ticked(0, 0.2), Charged(4, 200.0, 0.2)]
    + ([Commanded(ExecuteAction(STOP_CHARGING, false, true)), Ticked(0, 0.2)] + [Charged(5, 200.0, 0.2), Ticked(0, 0.2)])

  /** The vehicle goes on, with a step of one and a half seconds, and stops again. */
  const AGAIN: seq<Move> := [Driven(0.2), Driven(1.5)] + [Driven(0.2)]

  const TWO_STOPS: seq<Move> := LEAVING + (TICK + (TICK + (TICK + (BRIEF + AGAIN))))

  /** On the edge, with the node action going on. */
  function Leaving(o: Options, vehicle: Vehicle, spent: real, remembered: Option<real>, shown: seq<real>): Agv {
    Agv([Running(0, NODE_CHARGING, spent)], vehicle, Some(EDGE), remembered, shown, [], 1)
  }

  lemma Left(o: Options)
    requires Defaults(o)
    ensures Play(o, Attached(o, 0.0, 0.0, 1.0), LEAVING) ==
            Agv([Machine(0, NODE_CHARGING, Fresh(false))], Standing(o, 0.0, 1.0, false), Some(EDGE), None, [], [], 1)
  {
    hide Play, BatteryReach;
    var a0 := Attached(o, 0.0, 0.0, 1.0);
    var execute := Commanded(ExecuteAction(NODE_CHARGING, false, true));
    Executed(o, a0, NODE_CHARGING, true);
    PlayPair(o, a0, execute, Commanded(TraverseEdge(EDGE)));
  }

  /** The first three ticks. */
  lemma StoppedOnce(o: Options, a: Agv)
    requires Defaults(o) && Euclidean(o.plane) && a == Play(o, Attached(o, 0.0, 0.0, 1.0), LEAVING)
    ensures Play(o, Play(o, Play(o, a, TICK), TICK), TICK) ==
            Leaving(o, Standing(o, 0.8, LOW, false), 0.4, Some(LOW), [LOW])
  {
    hide Make, Play, Euclidean, BatteryReach, IsCharger, NODE_CHARGING, START_CHARGING, STOP_CHARGING, LEAVING;
    BuiltInChargers();
    Left(o);
    Initialized(o, a, 0, NODE_CHARGING, 0.6, Effect.StartCharging);
    Starts(o, Make(o, a, Ticked(0, 0.2)), 0.0, 1.0);
    PlayPair(o, a, Ticked(0, 0.2), Driven(0.2));
    var a1 := Leaving(o, Moving(o, 0.0, 1.0), 0.0, None, []);
    Works(o, a1, 0, NODE_CHARGING, 0.6, Effect.StartCharging, 0.0);
    Steps(o, Make(o, a1, Ticked(0, 0.2)), 0.0, 1.0, 0.2);
    PlayPair(o, a1, Ticked(0, 0.2), Driven(0.2));
    var a2 := Leaving(o, Moving(o, 0.4, 1.0 - 0.2 / 144.0), 0.2, None, []);
    Works(o, a2, 0, NODE_CHARGING, 0.6, Effect.StartCharging, 0.2);
    Steps(o, Make(o, a2, Ticked(0, 0.2)), 0.4, 1.0 - 0.2 / 144.0, 0.2);
    PlayPair(o, a2, Ticked(0, 0.2), Driven(0.2));
  }

  /** On the edge after the brief charge and what follows it. */
  function Gone(o: Options, vehicle: Vehicle, remembered: Option<real>, shown: seq<real>): Agv {
    Agv([], vehicle, Some(EDGE), remembered, shown, [Effect.StartCharging, StopCharging], 2)
  }

  lemma ChargedBriefly(o: Options)
    requires Defaults(o)
    ensures Play(o, Leaving(o, Standing(o, 0.8, LOW, false), 0.4, Some(LOW), [LOW]), BRIEF) ==
            Gone(o, Standing(o, 0.8, LOW + 1.0 / 90.0, false), Some(LOW), [LOW])
  {
    hide Make, Play, BatteryReach, IsCharger;
    var execute := Commanded(ExecuteAction(STOP_CHARGING, false, true));
    var a := Leaving(o, Standing(o, 0.8, LOW, false), 0.4, Some(LOW), [LOW]);
    BuiltInChargers();
    Works(o, a, 0, NODE_CHARGING, 0.6, Effect.StartCharging, 0.4);
    var a1 := Make(o, a, Ticked(0, 0.2));
    Charges(o, a1, 0.8, LOW, 4);
    var a2 := Make(o, a1, Charged(4, 200.0, 0.2));
    Executed(o, a2, STOP_CHARGING, true);
    var a3 := Make(o, a2, execute);
    Initialized(o, a3, 1, STOP_CHARGING, 0.2, StopCharging);
    var a4 := Make(o, a3, Ticked(0, 0.2));
    Charges(o, a4, 0.8, LOW + 1.0 / 180.0, 5);
    Works(o, Make(o, a4, Charged(5, 200.0, 0.2)), 1, STOP_CHARGING, 0.2, StopCharging, 0.0);
    PlayPair(o, a, Ticked(0, 0.2), Charged(4, 200.0, 0.2));
    PlayPair(o, a2, execute, Ticked(0, 0.2));
    PlayPair(o, a4, Charged(5, 200.0, 0.2), Ticked(0, 0.2));
    PlayConcat(o, a2, [execute, Ticked(0, 0.2)], [Charged(5, 200.0, 0.2), Ticked(0, 0.2)]);
    PlayConcat(o, a, [Ticked(0, 0.2), Charged(4, 200.0, 0.2)],
               [execute, Ticked(0, 0.2)] + [Charged(5, 200.0, 0.2), Ticked(0, 0.2)]);
  }

  lemma StoppedAgain(o: Options)
    requires Defaults(o) && Euclidean(o.plane)
    ensures Play(o, Gone(o, Standing(o, 0.8, LOW + 1.0 / 90.0, false), Some(LOW), [LOW]), AGAIN) ==
            Gone(o, Standing(o, 4.2, LOWER, false), Some(LOWER), [LOW, LOWER])
  {
    hide Make, Euclidean, BatteryReach;
    var a := Gone(o, Standing(o, 0.8, LOW + 1.0 / 90.0, false), Some(LOW), [LOW]);
    Starts(o, a, 0.8, LOW + 1.0 / 90.0);
    var a1 := Make(o, a, Driven(0.2));
    Steps(o, a1, 0.8, LOW + 1.0 / 90.0, 1.5);
    var a2 := Make(o, a1, Driven(1.5));
    Steps(o, a2, 3.8, LOW + 1.0 / 90.0 - 1.5 / 144.0, 0.2);
    PlayPair(o, a, Driven(0.2), Driven(1.5));
    PlayOne(o, a2, Driven(0.2), []);
    assert [Driven(0.2)] + [] == [Driven(0.2)];
    PlayConcat(o, a, [Driven(0.2), Driven(1.5)], [Driven(0.2)]);
  }

  lemma StoppedTwice(o: Options)
    requires Defaults(o) && Euclidean(o.plane)
    ensures Play(o, Attached(o, 0.0, 0.0, 1.0), TWO_STOPS) ==
            Gone(o, Standing(o, 4.2, LOWER, false), Some(LOWER), [LOW, LOWER])
  {
    hide Make, Play, Euclidean, LEAVING, TICK, BRIEF, AGAIN, Leaving, Gone, LOW, LOWER, Attached;
    var a0 := Attached(o, 0.0, 0.0, 1.0);
    var a1 := Play(o, a0, LEAVING);
    StoppedOnce(o, a1);
    var a2 := Play(o, a1, TICK);
    var a3 := Play(o, a2, TICK);
    var a4 := Play(o, a3, TICK);
    ChargedBriefly(o);
    StoppedAgain(o);
    PlayConcat(o, a4, BRIEF, AGAIN);
    PlayConcat(o, a3, TICK, BRIEF + AGAIN);
    PlayConcat(o, a2, TICK, TICK + (BRIEF + AGAIN));
    PlayConcat(o, a1, TICK, TICK + (TICK + (BRIEF + AGAIN)));
    PlayConcat(o, a0, LEAVING, TICK + (TICK + (TICK + (BRIEF + AGAIN))));
  }

  /**
   From `attach` as above, within one order: after two stops on a low battery the vehicle charges. Whether or not
   the tick that recovers the charge reports it, the first error stays published; only the second one goes.
   */
  lemma FirstOfTwoErrorsStays(o: Options, t: nat, n: nat)
    requires Defaults(o) && Euclidean(o.plane) && n > 1800
    ensures var a := Play(o, Attached(o, 0.0, 0.0, 1.0), TWO_STOPS + CHARGING + ChargingTicks(t, n));
            && a.vehicle.charge >= o.lowBatteryChargeThreshold + 10.0
            && LOW in a.shownErrors && (LOWER in a.shownErrors <==> t % 180 != 0)
  {
    hide TWO_STOPS, CHARGING, BatteryReach;
    var a0 := Attached(o, 0.0, 0.0, 1.0);
    StoppedTwice(o);
    var a1 := Play(o, a0, TWO_STOPS);
    StartsCharging(o, a1, 4.2, LOWER);
    PlayConcat(o, a0, TWO_STOPS, CHARGING);
    PlayConcat(o, a0, TWO_STOPS + CHARGING, ChargingTicks(t, n));
    var a2 := Play(o, a1, CHARGING);
    LowIs();
    RecoversAt(o, a2, t, n, 1800, 1.0 / 288.0);
    ChargingNeverStops(o, a2, t, n, LOW);
    ChargingNeverStops(o, a2, t, n, LOWER);
    ForgottenErrorStays(o, a2, ChargingTicks(t, n), LOW);
    ErrorGoneExactlyIfReleased(o, a2, ChargingTicks(t, n), LOWER);
  }
}
