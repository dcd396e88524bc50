/**
 The virtual AGV on values: its list of action machines, its motion and its battery, as a machine whose
 moves are the controller's commands, the pieces of a tick and the acceptance of an order. Class
 `VirtualAgvAdapter` makes the moves of its own in place.
 */
module VirtualAgv {
  import opened Wrappers
  import opened Actions
  import opened Geometry
  import opened ActionStateMachine

  type Positive = r: real | r > 0.0 witness 1.0

  /** Seconds between two ticks; the clock is assumed not to run backwards. */
  type Interval = r: real | r >= 0.0

  datatype Options = Options(
    plane: Plane,
    vehicleSpeed: Positive,
    batteryMaxReach: Positive,
    fullBatteryChargeTime: Positive,
    lowBatteryChargeThreshold: real)

  /** The end node and the speed limit of the edge being traversed. */
  datatype Route = Route(endX: real, endY: real, maxSpeed: Option<real>)

  datatype Vehicle = Vehicle(
    isDriving: bool,
    isPaused: bool,
    x: real,
    y: real,
    vx: real,
    vy: real,
    charge: real,
    reach: int,
    charging: bool,
    loaded: bool)

  datatype Machine = Machine(serial: nat, setup: Setup, state: MachineState)

  datatype Agv = Agv(
    machines: seq<Machine>,
    vehicle: Vehicle,
    route: Option<Route>,
    // The low-battery error the adapter remembers, told apart by the charge it quotes.
    lowError: Option<real>,
    // The low-battery errors in the state that the controller publishes.
    shownErrors: seq<real>,
    // The linked states handed to the controller so far.
    performed: seq<Effect>,
    nextSerial: nat)

  /* Vehicle */

  /** The greatest speed that neither the vehicle nor the edge forbids. */
  function TargetSpeed(o: Options, maxSpeed: Option<real>): (speed: real)
    ensures speed <= o.vehicleSpeed && (maxSpeed.Some? ==> speed <= maxSpeed.value)
    ensures speed == o.vehicleSpeed || maxSpeed == Some(speed)
  {
    if maxSpeed.Some? && maxSpeed.value < o.vehicleSpeed then maxSpeed.value else o.vehicleSpeed
  }

  /** The distance that a charge lasts for, in whole units. */
  function BatteryReach(o: Options, charge: real): (reach: int)
    ensures reach as real <= o.batteryMaxReach * charge / 100.0 < reach as real + 1.0
  {
    (o.batteryMaxReach * charge / 100.0).Floor
  }

  function StopDriving(v: Vehicle): Vehicle {
    v.(isDriving := false, vx := 0.0, vy := 0.0)
  }

  function StopIfDriving(v: Vehicle): Vehicle {
    if v.isDriving then StopDriving(v) else v
  }

  /** The charge needed for a distance. */
  function Drain(o: Options, distance: real): real {
    distance * 100.0 / o.batteryMaxReach
  }

  function SetCharge(o: Options, v: Vehicle, charge: real): Vehicle {
    v.(charge := charge, reach := BatteryReach(o, charge))
  }

  /** The charge left after a distance: it falls linearly, down to 0. */
  function ChargeAfter(o: Options, charge: real, distance: real): real {
    var left := charge - Drain(o, distance);
    if left > 0.0 then left else 0.0
  }

  function Discharge(o: Options, v: Vehicle, dx: real, dy: real): Vehicle {
    SetCharge(o, v, ChargeAfter(o, v.charge, o.plane.length(dx, dy)))
  }

  /** `updateErrors(error, "add")`: the controller lists an error once. */
  function AddError(errors: seq<real>, error: real): seq<real> {
    if error in errors then errors else errors + [error]
  }

  /** `updateErrors(error, "remove")`. */
  function RemoveError(errors: seq<real>, error: real): seq<real> {
    if errors == [] then []
    else if errors[0] == error then errors[1..]
    else [errors[0]] + RemoveError(errors[1..], error)
  }

  /** The vehicle moves in this tick: it is on a route and neither paused nor charging. */
  predicate MayDrive(a: Agv) {
    a.route.Some? && !a.vehicle.isPaused && !a.vehicle.charging
  }

  function StartDriving(o: Options, a: Agv, heading: (real, real)): Agv
    requires a.route.Some?
  {
    var speed := TargetSpeed(o, a.route.value.maxSpeed);
    a.(vehicle := a.vehicle.(isDriving := true, vx := heading.0 * speed, vy := heading.1 * speed))
  }

  function Arrive(o: Options, a: Agv, tx: real, ty: real): Agv
    requires a.route.Some?
  {
    var there := a.vehicle.(x := a.route.value.endX, y := a.route.value.endY);
    a.(vehicle := StopDriving(Discharge(o, there, tx, ty)), route := None)
  }

  function DriveOn(o: Options, a: Agv, dx: real, dy: real): Agv {
    var isBatteryLow := a.vehicle.charge < o.lowBatteryChargeThreshold;
    var moved := Discharge(o, a.vehicle.(x := a.vehicle.x + dx, y := a.vehicle.y + dy), dx, dy);
    if isBatteryLow
    then a.(vehicle := StopDriving(moved), lowError := Some(moved.charge),
            shownErrors := AddError(a.shownErrors, moved.charge))
    else a.(vehicle := moved)
  }

  /** The vector to the end node. */
  function ToEnd(a: Agv): (real, real)
    requires a.route.Some?
  {
    (a.route.value.endX - a.vehicle.x, a.route.value.endY - a.vehicle.y)
  }

  /** The vector of a driving step. */
  function StepBy(v: Vehicle, dt: Interval): (real, real) {
    (v.vx * dt, v.vy * dt)
  }

  function AdvanceTraverse(o: Options, a: Agv, dt: Interval): Agv {
    if !MayDrive(a) then a
    else
      var (tx, ty) := ToEnd(a);
      if !a.vehicle.isDriving then
        if a.vehicle.charge < o.lowBatteryChargeThreshold then a else StartDriving(o, a, o.plane.heading(tx, ty))
      else
        var (dx, dy) := StepBy(a.vehicle, dt);
        if Square(tx) + Square(ty) <= Square(dx) + Square(dy)
        then Arrive(o, a, tx, ty) else DriveOn(o, a, dx, dy)
  }

  /** Percent per second. */
  function ChargeRate(o: Options): Positive {
    100.0 / 3600.0 / o.fullBatteryChargeTime
  }

  function Ceil(v: real): (n: int)
    ensures (n - 1) as real < v <= n as real {
    -((-v).Floor)
  }

  /** The number of ticks between two reports of the rising charge. */
  function UpdateTicks(o: Options, tickInterval: Positive): (n: nat)
    ensures n > 0
  {
    var ticks := 1000.0 / ChargeRate(o) / tickInterval;
    Ceil(ticks)
  }

  function AdvanceCharge(o: Options, a: Agv, tick: nat, tickInterval: Positive, dt: Interval): Agv {
    if !a.vehicle.charging || a.vehicle.isPaused then a
    else
      var raised := a.vehicle.charge + ChargeRate(o) * dt;
      var charge := if raised < 100.0 then raised else 100.0;
      var v := SetCharge(o, a.vehicle, charge);
      var recovered := a.lowError.Some? && charge >= o.lowBatteryChargeThreshold + 10.0;
      a.(vehicle := if charge == 100.0 then v.(charging := false) else v,
         lowError := if recovered then None else a.lowError,
         shownErrors := if recovered && tick % UpdateTicks(o, tickInterval) == 0
                        then RemoveError(a.shownErrors, a.lowError.value) else a.shownErrors)
  }

  /* Machines */

  /** `pause()` or `unpause()` on every machine but the one whose action asks for it. */
  function SetPauseOfOthers(machines: seq<Machine>, self: nat, pause: bool): (r: seq<Machine>)
    ensures |r| == |machines|
    ensures forall i :: 0 <= i < |r| ==>
              r[i] == if machines[i].serial != self
                      then machines[i].(state := machines[i].state.(pause := pause)) else machines[i]
  {
    seq(|machines|, i requires 0 <= i < |machines| =>
      if machines[i].serial != self
      then machines[i].(state := machines[i].state.(pause := pause)) else machines[i])
  }

  function PerformOnVehicle(v: Vehicle, effect: Effect): Vehicle {
    match effect
    case NoEffect => v
    case LoadAdded => v.(loaded := true)
    case LoadRemoved => v.(loaded := false)
    case InitPosition(x, y) => v.(x := x, y := y)
    case StartPause => if v.isPaused then v else StopIfDriving(v).(isPaused := true)
    case StopPause => v.(isPaused := false)
    case StartCharging => if v.charging then v else StopIfDriving(v).(charging := true)
    case StopCharging => v.(charging := false)
  }

  /** The effect of entering a status, on behalf of machine `self`. */
  function Perform(a: Agv, self: nat, effect: Effect): Agv {
    var machines :=
      if effect == StartPause && !a.vehicle.isPaused then SetPauseOfOthers(a.machines, self, true)
      else if effect == StopPause && a.vehicle.isPaused then SetPauseOfOthers(a.machines, self, false)
      else a.machines;
    a.(machines := machines, vehicle := PerformOnVehicle(a.vehicle, effect),
       performed := if effect == NoEffect then a.performed else a.performed + [effect])
  }

  function RemoveAt(machines: seq<Machine>, i: nat): seq<Machine>
    requires i < |machines|
  {
    machines[..i] + machines[i + 1..]
  }

  predicate EndsWith(out: Outcome) {
    out.Reports? && out.status.Some? && Terminal(out.status.value)
  }

  /** The effect of the tick of the machine at index `i`. */
  function EffectOf(a: Agv, i: nat, dt: Interval): Effect {
    if i >= |a.machines| then NoEffect
    else
      var m := a.machines[i];
      var out := OnTick(m.setup, m.state, dt).1;
      if out.Reports? && out.status.Some? then LinkedEffect(m.setup.def, out.status.value) else NoEffect
  }

  /** The list after the transition of the machine at index `i`, before the effect of the new status. */
  function TickedAlone(a: Agv, i: nat, dt: Interval): Agv
    requires i < |a.machines|
  {
    var m := a.machines[i];
    var (state, out) := OnTick(m.setup, m.state, dt);
    a.(machines := if EndsWith(out) then RemoveAt(a.machines, i) else a.machines[i := m.(state := state)])
  }

  /** Tick of the machine at index `i`; a machine that ends is removed before its effect takes place. */
  function TickMachine(a: Agv, i: nat, dt: Interval): (Agv, Outcome) {
    if i >= |a.machines| then (a, Quiet)
    else
      var m := a.machines[i];
      (Perform(TickedAlone(a, i, dt), m.serial, EffectOf(a, i, dt)), OnTick(m.setup, m.state, dt).1)
  }

  /* Commands of the controller */

  datatype Command =
    | ExecuteAction(setup: Setup, stopDriving: bool, hasActiveOrder: bool)
    | FinishEdgeAction(actionId: string, scope: Scope)
    | CancelAction(actionId: string, scope: Scope)
    | TraverseEdge(edge: Route)
    | StopTraverse

  predicate Executable(v: Vehicle, setup: Setup, hasActiveOrder: bool) {
    match setup.def.executable
    case Always => true
    case IfUnloaded => !v.loaded
    case IfLoaded => v.loaded
    case IfNotPaused => !v.isPaused
    case IfPaused => v.isPaused
    case IfChargeable => !v.charging && !(hasActiveOrder && setup.scope == InstantScope)
    case IfCharging => v.charging
  }

  /** startPause and stopPause are the actions that a pause does not hold back. */
  predicate ControlsPause(setup: Setup) {
    setup.action.actionType == "stopPause" || setup.action.actionType == "startPause"
  }

  function Execute(a: Agv, setup: Setup, stopDriving: bool, hasActiveOrder: bool): Agv {
    if !Executable(a.vehicle, setup, hasActiveOrder) then a
    else
      var vehicle := if stopDriving then StopIfDriving(a.vehicle) else a.vehicle;
      var m := Machine(a.nextSerial, setup, Fresh(if ControlsPause(setup) then false else vehicle.isPaused));
      a.(vehicle := vehicle, machines := a.machines + [m], nextSerial := a.nextSerial + 1)
  }

  predicate RunsAction(m: Machine, actionId: string, scope: Scope) {
    m.setup.action.actionId == actionId && m.setup.scope == scope
  }

  /** The index of the first machine running the given action, or the number of machines. */
  function Find(machines: seq<Machine>, actionId: string, scope: Scope): (i: nat)
    ensures i <= |machines|
    ensures i < |machines| ==> RunsAction(machines[i], actionId, scope)
    ensures forall j :: 0 <= j < i ==> !RunsAction(machines[j], actionId, scope)
  {
    if machines == [] || RunsAction(machines[0], actionId, scope) then 0
    else 1 + Find(machines[1..], actionId, scope)
  }

  /** A request to the machine at index `i`. */
  function AskAt(a: Agv, i: nat, e: Event): Agv
    requires i < |a.machines|
  {
    var m := a.machines[i];
    a.(machines := a.machines[i := m.(state := ActionStateMachine.Step(m.setup, m.state, e).0)])
  }

  /** A request to the first matching machine, if there is one. */
  function Ask(a: Agv, actionId: string, scope: Scope, e: Event): Agv {
    var i := Find(a.machines, actionId, scope);
    if i == |a.machines| then a else AskAt(a, i, e)
  }

  function Obey(a: Agv, c: Command): Agv {
    match c
    case ExecuteAction(setup, stopDriving, hasActiveOrder) => Execute(a, setup, stopDriving, hasActiveOrder)
    case FinishEdgeAction(actionId, scope) => Ask(a, actionId, scope, Terminate)
    case CancelAction(actionId, scope) => Ask(a, actionId, scope, Cancel)
    case TraverseEdge(edge) => a.(route := Some(edge))
    case StopTraverse =>
      a.(route := None, vehicle := StopIfDriving(a.vehicle).(isPaused := false))
  }

  /* Acceptance of orders by the controller */

  const LOW_BATTERY_KEYS := ["batteryState.batteryCharge"]

  /** Kept are errors of instant actions and, if an active order is stitched, those that refer to an action. */
  predicate Keeps(referenceKeys: seq<string>, ofInstantAction: bool, stitched: bool) {
    ofInstantAction || (stitched && "actionId" in referenceKeys)
  }

  /** The low-battery errors that the controller goes on publishing. */
  function KeepErrors(errors: seq<real>, stitched: bool): seq<real> {
    if errors == [] then []
    else (if Keeps(LOW_BATTERY_KEYS, false, stitched) then [errors[0]] else []) + KeepErrors(errors[1..], stitched)
  }

  /** The adapter is not told. */
  function AcceptOrder(a: Agv, stitched: bool): Agv {
    a.(shownErrors := KeepErrors(a.shownErrors, stitched))
  }

  /* Moves and runs */

  datatype Move =
    | Commanded(command: Command)
    | Ticked(index: nat, dt: Interval)
    | Driven(dt: Interval)
    | Charged(tick: nat, tickInterval: Positive, dt: Interval)
    // The controller accepts a new order, an update, or a stitching order.
    | OrderAccepted(stitched: bool)

  function Make(o: Options, a: Agv, m: Move): Agv {
    match m
    case Commanded(c) => Obey(a, c)
    case Ticked(i, dt) => TickMachine(a, i, dt).0
    case Driven(dt) => AdvanceTraverse(o, a, dt)
    case Charged(tick, tickInterval, dt) => AdvanceCharge(o, a, tick, tickInterval, dt)
    case OrderAccepted(stitched) => AcceptOrder(a, stitched)
  }

  function Play(o: Options, a: Agv, moves: seq<Move>): Agv
    decreases |moves|
  {
    if moves == [] then a else Play(o, Make(o, a, moves[0]), moves[1..])
  }

  lemma {:induction false} PlayConcat(o: Options, a: Agv, front: seq<Move>, back: seq<Move>)
    ensures Play(o, a, front + back) == Play(o, Play(o, a, front), back)
    decreases |front|
  {
    if front == [] {
      assert front + back == back;
    } else {
      PlayConcat(o, Make(o, a, front[0]), front[1..], back);
      assert (front + back)[1..] == front[1..] + back;
    }
  }

  /** A vehicle as `attach` sets it up. */
  function Attached(o: Options, x: real, y: real, charge: real): Agv {
    Agv([], Vehicle(false, false, x, y, 0.0, 0.0, charge, BatteryReach(o, charge), false, false),
        None, None, [], [], 0)
  }
}
