/**
 Traversal of an edge: the vehicle stays on the straight line to the end node, is there after the
 estimated time, and pays for the distance with its battery.
 */
module Motion {
  import opened Wrappers
  import opened Geometry
  import opened ActionStateMachine
  import opened VirtualAgv
  import opened AgvSafety

  /** A straight course: its direction, its length, and the speed on it. */
  datatype Course = Course(edge: Route, ux: real, uy: real, length: real, speed: real)

  predicate LegalCourse(o: Options, c: Course) {
    Unit(c.ux, c.uy) && c.length >= 0.0 && c.speed == TargetSpeed(o, c.edge.maxSpeed) && c.speed > 0.0
  }

  /** The vehicle is on the course, `rest` before the end node, and heads for it if it drives. */
  predicate EnRoute(a: Agv, c: Course, rest: real) {
    && a.route == Some(c.edge)
    && rest >= 0.0
    && c.edge.endX - a.vehicle.x == rest * c.ux
    && c.edge.endY - a.vehicle.y == rest * c.uy
    && (a.vehicle.isDriving && rest > 0.0 ==>
          a.vehicle.vx == c.ux * c.speed && a.vehicle.vy == c.uy * c.speed)
  }

  predicate AtEnd(a: Agv, c: Course) {
    a.route == None && a.vehicle.x == c.edge.endX && a.vehicle.y == c.edge.endY && !a.vehicle.isDriving
  }

  /* One driving step */

  lemma ScaleSum(a: real, b: real, u: real) returns (au: real, bu: real)
    ensures au == a * u && bu == b * u && (a - b) * u == au - bu
  {
    au, bu := a * u, b * u;
  }

  lemma StartKeepsCourse(o: Options, a: Agv, c: Course, rest: real, heading: (real, real))
    requires c.speed == TargetSpeed(o, c.edge.maxSpeed) && EnRoute(a, c, rest)
    requires rest > 0.0 ==> heading == (c.ux, c.uy)
    ensures EnRoute(StartDriving(o, a, heading), c, rest)
  {
  }

  /** The arrival test compares the rest with the length of the step. */
  lemma ArrivalTest(c: Course, rest: real, dt: Interval, step: real, tx: real, ty: real, dx: real, dy: real)
    requires Unit(c.ux, c.uy) && c.speed > 0.0 && rest > 0.0 && step == c.speed * dt && step >= 0.0
    requires tx == rest * c.ux && ty == rest * c.uy
    requires dx == c.ux * c.speed * dt && dy == c.uy * c.speed * dt
    ensures dx == step * c.ux && dy == step * c.uy
    ensures Square(tx) + Square(ty) <= Square(dx) + Square(dy) <==> rest <= step
  {
    assert dx == step * c.ux && dy == step * c.uy;
    SquareOfScaled(rest, c.ux, c.uy);
    SquareOfScaled(step, c.ux, c.uy);
    SquareOrder(rest, step);
  }

  /** The two outcomes of a driving step, with its numbers named. */
  lemma DriveCases(o: Options, a: Agv, c: Course, dt: Interval, tx: real, ty: real, dx: real, dy: real)
    requires MayDrive(a) && a.vehicle.isDriving && a.route == Some(c.edge)
    requires (tx, ty) == ToEnd(a)
    requires (dx, dy) == StepBy(a.vehicle, dt)
    ensures AdvanceTraverse(o, a, dt) ==
            if Square(tx) + Square(ty) <= Square(dx) + Square(dy) then Arrive(o, a, tx, ty) else DriveOn(o, a, dx, dy)
  {
  }

  lemma ArriveEnds(o: Options, a: Agv, c: Course, rest: real, tx: real, ty: real)
    requires a.route == Some(c.edge) && o.plane.length(tx, ty) == rest
    ensures AtEnd(Arrive(o, a, tx, ty), c)
    ensures Arrive(o, a, tx, ty).vehicle.charge == ChargeAfter(o, a.vehicle.charge, rest)
  {
  }

  lemma DriveOnShortens(o: Options, a: Agv, c: Course, rest: real, step: real, dx: real, dy: real)
    requires EnRoute(a, c, rest) && 0.0 <= step < rest
    requires dx == step * c.ux && dy == step * c.uy && o.plane.length(dx, dy) == step
    ensures EnRoute(DriveOn(o, a, dx, dy), c, rest - step)
    ensures DriveOn(o, a, dx, dy).vehicle.charge == ChargeAfter(o, a.vehicle.charge, step)
  {
    var rx, sx := ScaleSum(rest, step, c.ux);
    var ry, sy := ScaleSum(rest, step, c.uy);
  }

  /** The vectors that the arrival test compares. */
  lemma EnRouteVectors(a: Agv, c: Course, rest: real, dt: Interval, tx: real, ty: real, dx: real, dy: real)
    requires EnRoute(a, c, rest) && a.vehicle.isDriving
    requires (tx, ty) == ToEnd(a) && (dx, dy) == StepBy(a.vehicle, dt)
    ensures rest >= 0.0 && tx == rest * c.ux && ty == rest * c.uy
    ensures rest > 0.0 ==> dx == c.ux * c.speed * dt && dy == c.uy * c.speed * dt
  {
  }

  lemma DriveStepCases(o: Options, a: Agv, c: Course, rest: real, dt: Interval, step: real,
                       tx: real, ty: real, dx: real, dy: real)
    requires EnRoute(a, c, rest) && MayDrive(a) && a.vehicle.isDriving && step >= 0.0
    requires (tx, ty) == ToEnd(a)
    requires (dx, dy) == StepBy(a.vehicle, dt)
    requires o.plane.length(tx, ty) == rest
    requires Square(tx) + Square(ty) <= Square(dx) + Square(dy) <==> rest <= step
    requires rest > step ==> dx == step * c.ux && dy == step * c.uy && o.plane.length(dx, dy) == step
    ensures var a' := AdvanceTraverse(o, a, dt);
            if rest <= step then
              AtEnd(a', c) && a'.vehicle.charge == ChargeAfter(o, a.vehicle.charge, rest)
            else
              && EnRoute(a', c, rest - step)
              && a'.vehicle.charge == ChargeAfter(o, a.vehicle.charge, step)
  {
    DriveCases(o, a, c, dt, tx, ty, dx, dy);
    if rest <= step {
      ArriveEnds(o, a, c, rest, tx, ty);
    } else {
      DriveOnShortens(o, a, c, rest, step, dx, dy);
    }
  }

  /**
   A driving step of a vehicle en route: it arrives exactly at the end node if the step reaches that
   far, and otherwise shortens the rest by exactly speed * dt.
   */
  lemma DriveStep(o: Options, a: Agv, c: Course, rest: real, dt: Interval, step: real)
    requires Euclidean(o.plane) && LegalCourse(o, c) && EnRoute(a, c, rest)
    requires MayDrive(a) && a.vehicle.isDriving && step == c.speed * dt && step >= 0.0
    ensures var a' := AdvanceTraverse(o, a, dt);
            if rest <= step then
              AtEnd(a', c) && a'.vehicle.charge == ChargeAfter(o, a.vehicle.charge, rest)
            else
              && EnRoute(a', c, rest - step)
              && a'.vehicle.charge == ChargeAfter(o, a.vehicle.charge, step)
  {
    hide AdvanceTraverse, ChargeAfter, AtEnd, Euclidean, EnRoute;
    var (tx, ty) := ToEnd(a);
    var (dx, dy) := StepBy(a.vehicle, dt);
    EnRouteVectors(a, c, rest, dt, tx, ty, dx, dy);
    MeasureScaled(o.plane, rest, c.ux, c.uy, tx, ty);
    if rest > 0.0 {
      ArrivalTest(c, rest, dt, step, tx, ty, dx, dy);
      if rest > step {
        MeasureScaled(o.plane, step, c.ux, c.uy, dx, dy);
      }
    }
    DriveStepCases(o, a, c, rest, dt, step, tx, ty, dx, dy);
  }

  /* Runs */

  /** Moves that end the traversal or displace the vehicle: another route, no route, or an initPosition. */
  predicate Disturbs(a: Agv, m: Move) {
    || (m.Commanded? && m.command.TraverseEdge? && a.route != Some(m.command.edge))
    || (m.Commanded? && m.command.StopTraverse?)
    || (m.Ticked? && EffectOf(a, m.index, m.dt).InitPosition?)
  }

  predicate Undisturbed(o: Options, a: Agv, moves: seq<Move>)
    decreases |moves|
  {
    moves != [] ==> !Disturbs(a, moves[0]) && Undisturbed(o, Make(o, a, moves[0]), moves[1..])
  }

  /** The vehicle does not charge in any state of the run. */
  predicate NeverCharges(o: Options, a: Agv, moves: seq<Move>)
    decreases |moves|
  {
    !a.vehicle.charging && (moves != [] ==> NeverCharges(o, Make(o, a, moves[0]), moves[1..]))
  }

  predicate IsDriveStep(a: Agv, m: Move) {
    m.Driven? && MayDrive(a) && a.vehicle.isDriving
  }

  /** The intervals of the driving steps of a run, start ticks excluded. */
  function DriveIntervals(o: Options, a: Agv, moves: seq<Move>): seq<Interval>
    decreases |moves|
  {
    if moves == [] then []
    else
      (if IsDriveStep(a, moves[0]) then [moves[0].dt] else [])
      + DriveIntervals(o, Make(o, a, moves[0]), moves[1..])
  }

  function Total(ts: seq<Interval>): real {
    if ts == [] then 0.0 else ts[0] + Total(ts[1..])
  }

  function TotalWay(speed: real, ts: seq<Interval>): real {
    if ts == [] then 0.0 else speed * ts[0] + TotalWay(speed, ts[1..])
  }

  /** The seconds spent driving in a run. */
  function DriveTime(o: Options, a: Agv, moves: seq<Move>): real {
    Total(DriveIntervals(o, a, moves))
  }

  /** The length of the steps made in a run at the given speed. */
  function DriveWay(o: Options, a: Agv, speed: real, moves: seq<Move>): real {
    TotalWay(speed, DriveIntervals(o, a, moves))
  }

  function StepOf(a: Agv, m: Move, speed: real): real {
    if IsDriveStep(a, m) then speed * m.dt else 0.0
  }

  lemma DriveWayUnfolds(o: Options, a: Agv, speed: real, moves: seq<Move>)
    requires moves != []
    ensures DriveWay(o, a, speed, moves) ==
            StepOf(a, moves[0], speed) + DriveWay(o, Make(o, a, moves[0]), speed, moves[1..])
  {
    var rest := DriveIntervals(o, Make(o, a, moves[0]), moves[1..]);
    if IsDriveStep(a, moves[0]) {
      assert ([moves[0].dt] + rest)[1..] == rest;
    } else {
      assert [] + rest == rest;
    }
  }

  predicate IntervalsWithin(moves: seq<Move>, maxInterval: real) {
    forall m :: m in moves && m.Driven? ==> m.dt <= maxInterval
  }

  /** `way` is speed times driving time so far. */
  predicate OnSchedule(a: Agv, c: Course, way: real, maxStep: real) {
    && way >= 0.0
    && if a.route.Some? then EnRoute(a, c, c.length - way)
       else AtEnd(a, c) && c.length <= way <= c.length + maxStep
  }

  function Covered(a: Agv, c: Course, way: real): real {
    if a.route.Some? then way else c.length
  }

  /** A move that is neither driving nor a disturbance keeps the place, and can at most stop the vehicle. */
  lemma OtherMovesKeepPlace(o: Options, a: Agv, m: Move)
    requires !Disturbs(a, m) && !m.Driven?
    ensures var a' := Make(o, a, m);
            && a'.route == a.route && a'.vehicle.x == a.vehicle.x && a'.vehicle.y == a.vehicle.y
            && (a'.vehicle.isDriving ==> a.vehicle.isDriving)
            && (a'.vehicle.isDriving ==> a'.vehicle.vx == a.vehicle.vx && a'.vehicle.vy == a.vehicle.vy)
            && (!a.vehicle.charging ==> a'.vehicle.charge == a.vehicle.charge)
  {
    hide OnTick, BatteryReach, ActionStateMachine.Step, AdvanceTraverse, Ask, SetPauseOfOthers, RemoveAt;
    AskKeepsVehicle(a, m);
  }

  lemma AskKeepsVehicle(a: Agv, m: Move)
    ensures m.Commanded? && m.command.FinishEdgeAction? ==>
              var a' := Ask(a, m.command.actionId, m.command.scope, Terminate);
              a' == a.(machines := a'.machines)
    ensures m.Commanded? && m.command.CancelAction? ==>
              var a' := Ask(a, m.command.actionId, m.command.scope, Cancel);
              a' == a.(machines := a'.machines)
  {
  }

  /** The drain of two distances one after the other is the drain of their sum, clamped at 0 either way. */
  lemma ChargeComposes(o: Options, charge: real, d1: real, d2: real)
    requires d1 >= 0.0 && d2 >= 0.0 && charge >= 0.0
    ensures ChargeAfter(o, ChargeAfter(o, charge, d1), d2) == ChargeAfter(o, charge, d1 + d2)
  {
    var p1, p2 := Drain(o, d1), Drain(o, d2);
    DrainSigns(o, d1, p1);
    DrainSigns(o, d2, p2);
    DrainAdds(o, d1, d2, p1, p2);
  }

  lemma DrainAdds(o: Options, d1: real, d2: real, p1: real, p2: real)
    requires p1 == Drain(o, d1) && p2 == Drain(o, d2)
    ensures Drain(o, d1 + d2) == p1 + p2
  {
    var r := o.batteryMaxReach;
    assert p1 * r == d1 * 100.0 && p2 * r == d2 * 100.0;
    assert (p1 + p2) * r == (d1 + d2) * 100.0;
  }

  lemma DrivingOnSchedule(o: Options, a: Agv, c: Course, way: real, maxStep: real, dt: Interval, step: real)
    requires Euclidean(o.plane) && LegalCourse(o, c) && OnSchedule(a, c, way, maxStep)
    requires MayDrive(a) && a.vehicle.isDriving && step == c.speed * dt && 0.0 <= step <= maxStep
    ensures var a' := AdvanceTraverse(o, a, dt);
            && OnSchedule(a', c, way + step, maxStep)
            && Covered(a, c, way) <= Covered(a', c, way + step)
            && a'.vehicle.charge ==
               ChargeAfter(o, a.vehicle.charge, Covered(a', c, way + step) - Covered(a, c, way))
  {
    DriveStep(o, a, c, c.length - way, dt, step);
  }

  lemma StandingOnSchedule(o: Options, a: Agv, c: Course, way: real, maxStep: real, dt: Interval)
    requires Euclidean(o.plane) && LegalCourse(o, c) && OnSchedule(a, c, way, maxStep)
    requires !(MayDrive(a) && a.vehicle.isDriving)
    ensures var a' := AdvanceTraverse(o, a, dt);
            OnSchedule(a', c, way, maxStep) && a'.route == a.route && a'.vehicle.charge == a.vehicle.charge
  {
    if MayDrive(a) {
      var (tx, ty) := ToEnd(a);
      var rest := c.length - way;
      if rest > 0.0 {
        MeasureScaled(o.plane, rest, c.ux, c.uy, tx, ty);
      }
      StartOnSchedule(o, a, c, way, maxStep, dt, o.plane.heading(tx, ty));
    }
  }

  lemma StartOnSchedule(o: Options, a: Agv, c: Course, way: real, maxStep: real, dt: Interval, heading: (real, real))
    requires c.speed == TargetSpeed(o, c.edge.maxSpeed) && OnSchedule(a, c, way, maxStep)
    requires MayDrive(a) && !a.vehicle.isDriving
    requires heading == o.plane.heading(ToEnd(a).0, ToEnd(a).1)
    requires c.length - way > 0.0 ==> heading == (c.ux, c.uy)
    ensures var a' := AdvanceTraverse(o, a, dt);
            OnSchedule(a', c, way, maxStep) && a'.route == a.route && a'.vehicle.charge == a.vehicle.charge
  {
    StartKeepsCourse(o, a, c, c.length - way, heading);
  }

  lemma MakesMove(o: Options, a: Agv, m: Move)
    ensures m.Driven? ==> Make(o, a, m) == AdvanceTraverse(o, a, m.dt)
  {
  }

  lemma RouteCovers(a: Agv, a': Agv, c: Course, way: real)
    requires a'.route == a.route
    ensures Covered(a', c, way) == Covered(a, c, way)
  {
  }

  lemma OtherMoveOnSchedule(o: Options, a: Agv, c: Course, way: real, maxStep: real, m: Move)
    requires OnSchedule(a, c, way, maxStep) && !Disturbs(a, m) && !m.Driven?
    ensures OnSchedule(Make(o, a, m), c, way, maxStep)
    ensures !a.vehicle.charging ==> Make(o, a, m).vehicle.charge == a.vehicle.charge
    ensures Make(o, a, m).route == a.route
  {
    hide Make, Disturbs;
    OtherMovesKeepPlace(o, a, m);
  }

  /** One undisturbed move of a vehicle on schedule. */
  lemma MoveOnSchedule(o: Options, a: Agv, c: Course, way: real, maxStep: real, m: Move, step: real)
    requires Euclidean(o.plane) && LegalCourse(o, c) && OnSchedule(a, c, way, maxStep) && !Disturbs(a, m)
    requires if IsDriveStep(a, m) then step == c.speed * m.dt && 0.0 <= step <= maxStep else step == 0.0
    ensures var a' := Make(o, a, m);
            && OnSchedule(a', c, way + step, maxStep)
            && Covered(a, c, way) <= Covered(a', c, way + step)
            && (!IsDriveStep(a, m) ==> Covered(a, c, way) == Covered(a', c, way + step))
            && (!a.vehicle.charging ==>
                  a'.vehicle.charge ==
                  if IsDriveStep(a, m)
                  then ChargeAfter(o, a.vehicle.charge, Covered(a', c, way + step) - Covered(a, c, way))
                  else a.vehicle.charge)
  {
    hide Make, Euclidean, LegalCourse, ChargeAfter, OnSchedule, Covered, Disturbs, AdvanceTraverse;
    MakesMove(o, a, m);
    if IsDriveStep(a, m) {
      DrivingOnSchedule(o, a, c, way, maxStep, m.dt, step);
    } else if m.Driven? {
      StandingOnSchedule(o, a, c, way, maxStep, m.dt);
      RouteCovers(a, Make(o, a, m), c, way);
    } else {
      OtherMoveOnSchedule(o, a, c, way, maxStep, m);
      RouteCovers(a, Make(o, a, m), c, way);
    }
  }

  lemma TimeTimesSpeed(speed: real, t1: real, t2: real)
    ensures speed * (t1 + t2) == speed * t1 + speed * t2
  {
  }

  /** The way driven is speed times driving time. */
  lemma {:induction false} WayIsSpeedTimesTime(speed: real, ts: seq<Interval>)
    ensures TotalWay(speed, ts) == speed * Total(ts)
  {
    if ts != [] {
      WayIsSpeedTimesTime(speed, ts[1..]);
      TimeTimesSpeed(speed, ts[0], Total(ts[1..]));
    }
  }

  lemma StepWithin(a: Agv, m: Move, speed: real, maxInterval: real, maxStep: real) returns (step: real)
    requires speed > 0.0 && (m.Driven? ==> m.dt <= maxInterval) && maxStep == speed * maxInterval
    ensures step == StepOf(a, m, speed) && step >= 0.0
    ensures IsDriveStep(a, m) ==> step == speed * m.dt && step <= maxStep
    ensures !IsDriveStep(a, m) ==> step == 0.0
  {
    step := StepOf(a, m, speed);
    if IsDriveStep(a, m) {
      var slack := speed * (maxInterval - m.dt);
      assert slack >= 0.0;
    }
  }

  /**
   Over every undisturbed run, across pauses, charging and restarts, the vehicle is either en route, as far
   along its course as it has driven, or at the end node.
   */
  lemma {:induction false} TraversalStaysOnCourse(o: Options, a: Agv, c: Course, way: real, moves: seq<Move>,
                                                  maxInterval: real, maxStep: real)
    requires Euclidean(o.plane) && LegalCourse(o, c) && OnSchedule(a, c, way, maxStep)
    requires maxStep == c.speed * maxInterval
    requires Undisturbed(o, a, moves) && IntervalsWithin(moves, maxInterval)
    ensures OnSchedule(Play(o, a, moves), c, way + DriveWay(o, a, c.speed, moves), maxStep)
    decreases |moves|
  {
    if moves != [] {
      var step := StepWithin(a, moves[0], c.speed, maxInterval, maxStep);
      MoveOnSchedule(o, a, c, way, maxStep, moves[0], step);
      DriveWayUnfolds(o, a, c.speed, moves);
      TraversalStaysOnCourse(o, Make(o, a, moves[0]), c, way + step, moves[1..], maxInterval, maxStep);
    }
  }

  /**
   The whole discharge of a run without charging is the drain of the straight-line distance covered,
   clamped at an empty battery.
   */
  lemma {:induction false} TraversalDrainsByDistance(o: Options, a: Agv, c: Course, way: real, moves: seq<Move>,
                                                     maxInterval: real, maxStep: real)
    requires Euclidean(o.plane) && LegalCourse(o, c) && OnSchedule(a, c, way, maxStep)
    requires maxStep == c.speed * maxInterval
    requires Undisturbed(o, a, moves) && IntervalsWithin(moves, maxInterval)
    requires NeverCharges(o, a, moves) && a.vehicle.charge >= 0.0
    ensures var a' := Play(o, a, moves);
            var distance := Covered(a', c, way + DriveWay(o, a, c.speed, moves)) - Covered(a, c, way);
            distance >= 0.0 && a'.vehicle.charge == ChargeAfter(o, a.vehicle.charge, distance)
    decreases |moves|
  {
    hide Make, OnSchedule, Euclidean, Drain;
    if moves == [] {
      DrainOfNothing(o, a.vehicle.charge);
    } else {
      var step := StepWithin(a, moves[0], c.speed, maxInterval, maxStep);
      MoveOnSchedule(o, a, c, way, maxStep, moves[0], step);
      DriveWayUnfolds(o, a, c.speed, moves);
      var a' := Make(o, a, moves[0]);
      TraversalDrainsByDistance(o, a', c, way + step, moves[1..], maxInterval, maxStep);
      var a'' := Play(o, a', moves[1..]);
      var way' := way + step + DriveWay(o, a', c.speed, moves[1..]);
      DrainOfMoves(o, a.vehicle.charge, a'.vehicle.charge, a''.vehicle.charge, IsDriveStep(a, moves[0]),
                   Covered(a', c, way + step) - Covered(a, c, way), Covered(a'', c, way') - Covered(a', c, way + step));
    }
  }

  /** A move and the rest of the run. */
  lemma DrainOfMoves(o: Options, c0: real, c1: real, c2: real, driving: bool, d1: real, d2: real)
    requires c0 >= 0.0 && d1 >= 0.0 && d2 >= 0.0 && (!driving ==> d1 == 0.0)
    requires c1 == if driving then ChargeAfter(o, c0, d1) else c0
    requires c2 == ChargeAfter(o, c1, d2)
    ensures c2 == ChargeAfter(o, c0, d1 + d2)
  {
    if driving {
      ChargeComposes(o, c0, d1, d2);
    }
  }

  lemma DrainOfNothing(o: Options, charge: real)
    requires charge >= 0.0
    ensures ChargeAfter(o, charge, 0.0) == charge
  {
    assert Drain(o, 0.0) == 0.0;
  }

  /* From the command to the arrival */

  /** The course from where the vehicle stands to the end of an edge. */
  function CourseTo(o: Options, a: Agv, edge: Route): Course {
    var tx, ty := edge.endX - a.vehicle.x, edge.endY - a.vehicle.y;
    var (ux, uy) := o.plane.heading(tx, ty);
    Course(edge, ux, uy, o.plane.length(tx, ty), TargetSpeed(o, edge.maxSpeed))
  }

  lemma SentOnCourse(a: Agv, c: Course, maxStep: real)
    requires !a.vehicle.isDriving && c.length >= 0.0
    requires c.edge.endX - a.vehicle.x == c.length * c.ux && c.edge.endY - a.vehicle.y == c.length * c.uy
    ensures OnSchedule(Obey(a, TraverseEdge(c.edge)), c, 0.0, maxStep)
  {
    assert c.length - 0.0 == c.length;
  }

  lemma CourseIsLegal(o: Options, a: Agv, edge: Route)
    requires Euclidean(o.plane) && TargetSpeed(o, edge.maxSpeed) > 0.0
    ensures var c := CourseTo(o, a, edge);
            && LegalCourse(o, c)
            && edge.endX - a.vehicle.x == c.length * c.ux && edge.endY - a.vehicle.y == c.length * c.uy
  {
    var tx, ty := edge.endX - a.vehicle.x, edge.endY - a.vehicle.y;
    assert Measures(o.plane, tx, ty);
  }

  /** The travel time of an edge in the closed-form estimate. */
  function TravelEstimate(o: Options, fromX: real, fromY: real, edge: Route): real
    requires TargetSpeed(o, edge.maxSpeed) != 0.0
  {
    o.plane.length(edge.endX - fromX, edge.endY - fromY) / TargetSpeed(o, edge.maxSpeed)
  }

  lemma TimeOfDistance(speed: real, distance: real, time: real, maxInterval: real)
    requires speed > 0.0
    ensures distance <= speed * time <==> distance / speed <= time
    ensures speed * time <= distance <==> time <= distance / speed
    ensures speed * time <= distance + speed * maxInterval <==> time <= distance / speed + maxInterval
  {
    var q := distance / speed;
    assert q * speed == distance;
    OrderScales(speed, q, time);
    OrderScales(speed, time, q);
    TimeTimesSpeed(speed, q, maxInterval);
    OrderScales(speed, time, q + maxInterval);
  }

  lemma OrderScales(s: real, a: real, b: real)
    requires s > 0.0
    ensures s * a <= s * b <==> a <= b
  {
    if a < b {
      var p := MulPositive(s, b - a);
    } else if b < a {
      var p := MulPositive(s, a - b);
    }
  }

  /** The way driven and the driving time bound each other as length and estimate do. */
  predicate MeetsEstimate(a: Agv, time: real, estimate: real, maxInterval: real) {
    if a.route.None? then estimate <= time <= estimate + maxInterval else time <= estimate
  }

  lemma ScheduleMeetsEstimate(a: Agv, c: Course, way: real, time: real, maxInterval: real)
    requires c.speed > 0.0 && way == c.speed * time
    requires OnSchedule(a, c, way, c.speed * maxInterval)
    ensures MeetsEstimate(a, time, c.length / c.speed, maxInterval)
  {
    TimeOfDistance(c.speed, c.length, time, maxInterval);
  }

  /**
   Tick simulation refines the travel estimate T: a vehicle that stands, is sent along an edge and is not
   disturbed arrives at the end node after driving for at least T and at most T plus one interval; until
   then it has driven for at most T.
   */
  lemma TraversalMeetsEstimate(o: Options, a: Agv, edge: Route, moves: seq<Move>, maxInterval: real)
    requires Euclidean(o.plane) && TargetSpeed(o, edge.maxSpeed) > 0.0 && !a.vehicle.isDriving
    requires Undisturbed(o, Obey(a, TraverseEdge(edge)), moves) && IntervalsWithin(moves, maxInterval)
    ensures var sent := Obey(a, TraverseEdge(edge));
            var a' := Play(o, sent, moves);
            && MeetsEstimate(a', DriveTime(o, sent, moves), TravelEstimate(o, a.vehicle.x, a.vehicle.y, edge), maxInterval)
            && (a'.route.None? ==> AtEnd(a', CourseTo(o, a, edge)))
  {
    var c := CourseTo(o, a, edge);
    var sent := Obey(a, TraverseEdge(edge));
    var maxStep := c.speed * maxInterval;
    CourseIsLegal(o, a, edge);
    SentOnCourse(a, c, maxStep);
    TraversalStaysOnCourse(o, sent, c, 0.0, moves, maxInterval, maxStep);
    WayIsSpeedTimesTime(c.speed, DriveIntervals(o, sent, moves));
    ScheduleMeetsEstimate(Play(o, sent, moves), c, DriveWay(o, sent, c.speed, moves), DriveTime(o, sent, moves), maxInterval);
  }

  /** Along the way the charge has paid for exactly the distance covered; on arrival, for the whole edge. */
  lemma TraversalCostsItsLength(o: Options, a: Agv, edge: Route, moves: seq<Move>, maxInterval: real)
    requires Euclidean(o.plane) && TargetSpeed(o, edge.maxSpeed) > 0.0 && !a.vehicle.isDriving
    requires var sent := Obey(a, TraverseEdge(edge));
             && Undisturbed(o, sent, moves) && IntervalsWithin(moves, maxInterval)
             && NeverCharges(o, sent, moves) && a.vehicle.charge >= 0.0
    ensures var sent := Obey(a, TraverseEdge(edge));
            var c := CourseTo(o, a, edge);
            var a' := Play(o, sent, moves);
            a'.vehicle.charge ==
            ChargeAfter(o, a.vehicle.charge, if a'.route.None? then c.length else DriveWay(o, sent, c.speed, moves))
  {
    var c := CourseTo(o, a, edge);
    var sent := Obey(a, TraverseEdge(edge));
    CourseIsLegal(o, a, edge);
    SentOnCourse(a, c, c.speed * maxInterval);
    TraversalDrainsByDistance(o, sent, c, 0.0, moves, maxInterval, c.speed * maxInterval);
  }

  /* Uninterrupted traversal: one tick starts the vehicle, every other one drives it */

  /** The intervals of all motion ticks of a run. */
  function TickIntervals(moves: seq<Move>): seq<Interval> {
    if moves == [] then []
    else (if moves[0].Driven? then [moves[0].dt] else []) + TickIntervals(moves[1..])
  }

  /**
   Every move finds the vehicle under way, neither held by a pause, charging or a low battery on a motion
   tick, nor stopped by the move.
   */
  predicate Promptly(o: Options, a: Agv, moves: seq<Move>)
    decreases |moves|
  {
    moves != [] ==>
      var a' := Make(o, a, moves[0]);
      && a.route.Some?
      && (moves[0].Driven? ==> MayDrive(a) && a.vehicle.charge >= o.lowBatteryChargeThreshold)
      && (a.vehicle.isDriving && a'.route.Some? ==> a'.vehicle.isDriving)
      && Promptly(o, a', moves[1..])
  }

  lemma {:induction false} DrivesAllTheTime(o: Options, a: Agv, moves: seq<Move>)
    requires Promptly(o, a, moves) && Undisturbed(o, a, moves) && (a.route.Some? ==> a.vehicle.isDriving)
    ensures DriveIntervals(o, a, moves) == TickIntervals(moves)
    decreases |moves|
  {
    if moves != [] {
      var a' := Make(o, a, moves[0]);
      DrivesAllTheTime(o, a', moves[1..]);
    }
  }

  lemma StartsOnTick(o: Options, a: Agv, m: Move)
    requires a.route.Some? && !a.vehicle.isDriving && !Disturbs(a, m)
    requires m.Driven? ==> MayDrive(a) && a.vehicle.charge >= o.lowBatteryChargeThreshold
    ensures var a' := Make(o, a, m); a'.route == a.route && (a'.vehicle.isDriving <==> m.Driven?)
  {
    if !m.Driven? {
      OtherMovesKeepPlace(o, a, m);
    }
  }

  /** From the command to the arrival, all motion ticks but the first one are driving steps. */
  lemma {:induction false} OneStartTick(o: Options, a: Agv, moves: seq<Move>)
    requires !a.vehicle.isDriving && Promptly(o, a, moves) && Undisturbed(o, a, moves)
    ensures TickIntervals(moves) != [] ==> DriveIntervals(o, a, moves) == TickIntervals(moves)[1..]
    ensures TickIntervals(moves) == [] ==> Play(o, a, moves).route == a.route
    decreases |moves|
  {
    if moves != [] {
      var a' := Make(o, a, moves[0]);
      StartsOnTick(o, a, moves[0]);
      if moves[0].Driven? {
        DrivesAllTheTime(o, a', moves[1..]);
      } else {
        OneStartTick(o, a', moves[1..]);
      }
    }
  }

  /** `time` is the estimate and one start tick, up to one interval. */
  predicate TakesEstimate(ts: seq<Interval>, estimate: real, maxInterval: real) {
    ts != [] && ts[0] + estimate <= Total(ts) <= ts[0] + estimate + maxInterval
  }

  /**
   The time of a whole traversal: a vehicle that is sent along an edge, not disturbed and not held up arrives
   after the start tick plus the estimate T, and at most one interval later.
   */
  lemma TraversalTakesEstimate(o: Options, a: Agv, edge: Route, moves: seq<Move>, maxInterval: real)
    requires Euclidean(o.plane) && TargetSpeed(o, edge.maxSpeed) > 0.0 && !a.vehicle.isDriving
    requires var sent := Obey(a, TraverseEdge(edge));
             Undisturbed(o, sent, moves) && Promptly(o, sent, moves) && Play(o, sent, moves).route.None?
    requires IntervalsWithin(moves, maxInterval)
    ensures TakesEstimate(TickIntervals(moves), TravelEstimate(o, a.vehicle.x, a.vehicle.y, edge), maxInterval)
  {
    var sent := Obey(a, TraverseEdge(edge));
    OneStartTick(o, sent, moves);
    TraversalMeetsEstimate(o, a, edge, moves, maxInterval);
  }

  /* A whole route */

  /** What happens at a node, then the edge that leaves it and the moves until its end is reached. */
  datatype Leg = Leg(stay: seq<Move>, edge: Route, moves: seq<Move>)

  function Departure(o: Options, a: Agv, leg: Leg): Agv {
    Obey(Play(o, a, leg.stay), TraverseEdge(leg.edge))
  }

  function Arrival(o: Options, a: Agv, leg: Leg): Agv {
    Play(o, Departure(o, a, leg), leg.moves)
  }

  /** From a node, leg by leg, undisturbed, each edge traversed to its end. */
  predicate DrivesRoute(o: Options, a: Agv, legs: seq<Leg>, maxInterval: real)
    decreases |legs|
  {
    a.route.None? && !a.vehicle.isDriving &&
    (legs != [] ==>
       && TargetSpeed(o, legs[0].edge.maxSpeed) > 0.0
       && Undisturbed(o, a, legs[0].stay)
       && Undisturbed(o, Departure(o, a, legs[0]), legs[0].moves)
       && IntervalsWithin(legs[0].moves, maxInterval)
       && DrivesRoute(o, Arrival(o, a, legs[0]), legs[1..], maxInterval))
  }

  function RouteTime(o: Options, a: Agv, legs: seq<Leg>): real
    decreases |legs|
  {
    if legs == [] then 0.0
    else DriveTime(o, Departure(o, a, legs[0]), legs[0].moves) + RouteTime(o, Arrival(o, a, legs[0]), legs[1..])
  }

  /** The closed-form travel time of consecutive edges. */
  function RouteEstimate(o: Options, fromX: real, fromY: real, edges: seq<Route>): real
    requires forall e :: e in edges ==> TargetSpeed(o, e.maxSpeed) != 0.0
    decreases |edges|
  {
    if edges == [] then 0.0
    else TravelEstimate(o, fromX, fromY, edges[0]) + RouteEstimate(o, edges[0].endX, edges[0].endY, edges[1..])
  }

  function Edges(legs: seq<Leg>): (edges: seq<Route>)
    ensures |edges| == |legs| && forall i :: 0 <= i < |legs| ==> edges[i] == legs[i].edge
  {
    if legs == [] then [] else [legs[0].edge] + Edges(legs[1..])
  }

  /** Without a route the vehicle stays where it is, whatever else happens. */
  lemma {:induction false} StaysAtNode(o: Options, a: Agv, moves: seq<Move>)
    requires a.route.None? && !a.vehicle.isDriving && Undisturbed(o, a, moves)
    ensures var a' := Play(o, a, moves);
            && a'.route.None? && !a'.vehicle.isDriving
            && a'.vehicle.x == a.vehicle.x && a'.vehicle.y == a.vehicle.y
    decreases |moves|
  {
    if moves != [] {
      if !moves[0].Driven? {
        OtherMovesKeepPlace(o, a, moves[0]);
      }
      StaysAtNode(o, Make(o, a, moves[0]), moves[1..]);
    }
  }

  lemma {:induction false} SpeedsAreLegal(o: Options, a: Agv, legs: seq<Leg>, maxInterval: real)
    requires DrivesRoute(o, a, legs, maxInterval)
    ensures forall e :: e in Edges(legs) ==> TargetSpeed(o, e.maxSpeed) > 0.0
    decreases |legs|
  {
    if legs != [] {
      SpeedsAreLegal(o, Arrival(o, a, legs[0]), legs[1..], maxInterval);
    }
  }

  lemma LegMeetsEstimate(o: Options, a: Agv, legs: seq<Leg>, maxInterval: real)
    requires Euclidean(o.plane) && DrivesRoute(o, a, legs, maxInterval) && legs != []
    ensures var e := legs[0].edge;
            var a' := Arrival(o, a, legs[0]);
            var time := DriveTime(o, Departure(o, a, legs[0]), legs[0].moves);
            && TargetSpeed(o, e.maxSpeed) != 0.0
            && a'.vehicle.x == e.endX && a'.vehicle.y == e.endY
            && TravelEstimate(o, a.vehicle.x, a.vehicle.y, e) <= time
            && time <= TravelEstimate(o, a.vehicle.x, a.vehicle.y, e) + maxInterval
  {
    var leg := legs[0];
    StaysAtNode(o, a, leg.stay);
    TraversalMeetsEstimate(o, Play(o, a, leg.stay), leg.edge, leg.moves, maxInterval);
  }

  /** Summed over the edges of an order, the simulated travel time meets the estimate within one interval per edge. */
  lemma {:induction false} RouteMeetsEstimate(o: Options, a: Agv, legs: seq<Leg>, maxInterval: real)
    requires Euclidean(o.plane) && DrivesRoute(o, a, legs, maxInterval)
    requires forall e :: e in Edges(legs) ==> TargetSpeed(o, e.maxSpeed) > 0.0
    ensures var estimate := RouteEstimate(o, a.vehicle.x, a.vehicle.y, Edges(legs));
            estimate <= RouteTime(o, a, legs) <= estimate + |legs| as real * maxInterval
    decreases |legs|
  {
    hide Play, DriveTime, TravelEstimate, TargetSpeed, Arrival, Departure, Euclidean;
    if legs != [] {
      var a' := Arrival(o, a, legs[0]);
      var edges := Edges(legs);
      assert edges[0] == legs[0].edge && edges[1..] == Edges(legs[1..]);
      LegMeetsEstimate(o, a, legs, maxInterval);
      RouteMeetsEstimate(o, a', legs[1..], maxInterval);
      MulStep(|legs| - 1, maxInterval);
    }
  }

  /** Every leg goes on promptly from its departure. */
  predicate PromptRoute(o: Options, a: Agv, legs: seq<Leg>)
    decreases |legs|
  {
    legs != [] ==>
      Promptly(o, Departure(o, a, legs[0]), legs[0].moves) && PromptRoute(o, Arrival(o, a, legs[0]), legs[1..])
  }

  /** The time from each departure to the arrival. */
  function RouteTicks(legs: seq<Leg>): real {
    if legs == [] then 0.0 else Total(TickIntervals(legs[0].moves)) + RouteTicks(legs[1..])
  }

  /** The start ticks of the legs. */
  function RouteStarts(legs: seq<Leg>): real {
    if legs == [] then 0.0
    else
      var ts := TickIntervals(legs[0].moves);
      (if ts == [] then 0.0 else ts[0]) + RouteStarts(legs[1..])
  }

  lemma LegTakesEstimate(o: Options, a: Agv, legs: seq<Leg>, maxInterval: real)
    requires Euclidean(o.plane) && DrivesRoute(o, a, legs, maxInterval) && PromptRoute(o, a, legs) && legs != []
    ensures var e := legs[0].edge;
            && TargetSpeed(o, e.maxSpeed) != 0.0
            && TakesEstimate(TickIntervals(legs[0].moves), TravelEstimate(o, a.vehicle.x, a.vehicle.y, e), maxInterval)
  {
    StaysAtNode(o, a, legs[0].stay);
    TraversalTakesEstimate(o, Play(o, a, legs[0].stay), legs[0].edge, legs[0].moves, maxInterval);
  }

  /** Summed over a route, the simulated time is the estimate plus one start tick, up to one interval, per edge. */
  lemma {:induction false} RouteTakesEstimate(o: Options, a: Agv, legs: seq<Leg>, maxInterval: real)
    requires Euclidean(o.plane) && DrivesRoute(o, a, legs, maxInterval) && PromptRoute(o, a, legs)
    requires forall e :: e in Edges(legs) ==> TargetSpeed(o, e.maxSpeed) > 0.0
    ensures var time := RouteStarts(legs) + RouteEstimate(o, a.vehicle.x, a.vehicle.y, Edges(legs));
            time <= RouteTicks(legs) <= time + |legs| as real * maxInterval
    decreases |legs|
  {
    hide Play, Promptly, TravelEstimate, TargetSpeed, Arrival, Departure, Euclidean, TickIntervals;
    if legs != [] {
      var edges := Edges(legs);
      assert edges[0] == legs[0].edge && edges[1..] == Edges(legs[1..]);
      LegMeetsEstimate(o, a, legs, maxInterval);
      LegTakesEstimate(o, a, legs, maxInterval);
      RouteTakesEstimate(o, Arrival(o, a, legs[0]), legs[1..], maxInterval);
      MulStep(|legs| - 1, maxInterval);
    }
  }

  /* The speed */

  /** On the edge, driving with the given speed if at all, or at its end. */
  predicate AtSpeed(a: Agv, edge: Route, speed: real) {
    if a.vehicle.isDriving
    then a.route == Some(edge) && Square(a.vehicle.vx) + Square(a.vehicle.vy) == Square(speed)
    else a.route == Some(edge) || a.route == None
  }

  lemma StartedAtSpeed(o: Options, a: Agv, edge: Route, heading: (real, real))
    requires a.route == Some(edge) && Unit(heading.0, heading.1)
    ensures AtSpeed(StartDriving(o, a, heading), edge, TargetSpeed(o, edge.maxSpeed))
  {
    hide TargetSpeed;
    var speed := TargetSpeed(o, edge.maxSpeed);
    SquareOfScaled(speed, heading.0, heading.1);
    assert heading.0 * speed == speed * heading.0 && heading.1 * speed == speed * heading.1;
  }

  lemma MotionAtSpeed(o: Options, a: Agv, edge: Route, dt: Interval)
    requires Euclidean(o.plane) && AtSpeed(a, edge, TargetSpeed(o, edge.maxSpeed))
    ensures AtSpeed(AdvanceTraverse(o, a, dt), edge, TargetSpeed(o, edge.maxSpeed))
  {
    hide TargetSpeed, ChargeAfter, BatteryReach, Square, StartDriving;
    if MayDrive(a) && !a.vehicle.isDriving {
      var (tx, ty) := ToEnd(a);
      var h := o.plane.heading(tx, ty);
      assert Measures(o.plane, tx, ty);
      StartedAtSpeed(o, a, edge, h);
    }
  }

  lemma {:induction false} RunAtSpeed(o: Options, a: Agv, edge: Route, moves: seq<Move>)
    requires Euclidean(o.plane) && AtSpeed(a, edge, TargetSpeed(o, edge.maxSpeed)) && Undisturbed(o, a, moves)
    ensures AtSpeed(Play(o, a, moves), edge, TargetSpeed(o, edge.maxSpeed))
    decreases |moves|
  {
    if moves != [] {
      hide Euclidean, AdvanceTraverse, TargetSpeed, Make, Disturbs;
      MakesMove(o, a, moves[0]);
      if moves[0].Driven? {
        MotionAtSpeed(o, a, edge, moves[0].dt);
      } else {
        OtherMovesKeepPlace(o, a, moves[0]);
      }
      RunAtSpeed(o, Make(o, a, moves[0]), edge, moves[1..]);
    }
  }

  /**
   Whenever the vehicle drives on an undisturbed traversal, it drives as fast as it can and the edge permits: at
   its own speed or at the speed limit of the edge, and never above either.
   */
  lemma DrivesAtLimit(o: Options, a: Agv, edge: Route, moves: seq<Move>)
    requires Euclidean(o.plane) && !a.vehicle.isDriving && Undisturbed(o, Obey(a, TraverseEdge(edge)), moves)
    requires edge.maxSpeed.Some? ==> edge.maxSpeed.value > 0.0
    ensures var v := Play(o, Obey(a, TraverseEdge(edge)), moves).vehicle;
            var square := Square(v.vx) + Square(v.vy);
            v.isDriving ==>
              && square <= Square(o.vehicleSpeed) && (edge.maxSpeed.Some? ==> square <= Square(edge.maxSpeed.value))
              && (square == Square(o.vehicleSpeed) || (edge.maxSpeed.Some? && square == Square(edge.maxSpeed.value)))
  {
    var speed := TargetSpeed(o, edge.maxSpeed);
    RunAtSpeed(o, Obey(a, TraverseEdge(edge)), edge, moves);
    SquareOrder(speed, o.vehicleSpeed);
    if edge.maxSpeed.Some? {
      SquareOrder(speed, edge.maxSpeed.value);
    }
  }

  /* A low battery */

  /** Driving starts only with a charge at or above the threshold. */
  lemma DrivingStartsCharged(o: Options, a: Agv, m: Move)
    requires !a.vehicle.isDriving && Make(o, a, m).vehicle.isDriving
    ensures m.Driven? && a.vehicle.charge >= o.lowBatteryChargeThreshold
  {
  }

  /** The number of driving steps made with a charge below the threshold. */
  function LowSteps(o: Options, a: Agv, moves: seq<Move>): nat
    decreases |moves|
  {
    if moves == [] then 0
    else
      (if IsDriveStep(a, moves[0]) && a.vehicle.charge < o.lowBatteryChargeThreshold then 1 else 0)
      + LowSteps(o, Make(o, a, moves[0]), moves[1..])
  }

  predicate IsLow(o: Options, a: Agv) {
    a.vehicle.charge < o.lowBatteryChargeThreshold
  }

  /** The number of moves that take the charge from at or above the threshold to below it. */
  function Drops(o: Options, a: Agv, moves: seq<Move>): nat
    decreases |moves|
  {
    if moves == [] then 0
    else
      var a' := Make(o, a, moves[0]);
      (if !IsLow(o, a) && IsLow(o, a') then 1 else 0) + Drops(o, a', moves[1..])
  }

  /** A low vehicle that drives afterwards has driven before and not made a step. */
  lemma LowStepStops(o: Options, a: Agv, m: Move)
    ensures var a' := Make(o, a, m);
            && (IsLow(o, a) && a'.vehicle.isDriving ==> a.vehicle.isDriving && !IsDriveStep(a, m))
            && (Euclidean(o.plane) && !a.vehicle.charging && a.vehicle.charge >= 0.0 ==>
                  0.0 <= a'.vehicle.charge <= a.vehicle.charge)
  {
    if m.Driven? && Euclidean(o.plane) && a.vehicle.charge >= 0.0 {
      ChargeOnlyFalls(o, a, m.dt);
    }
  }

  /**
   On any commands, discharged and charged in any order: each time the charge falls below the threshold the
   vehicle makes at most one step more, and one if it is already driving with a low battery.
   */
  lemma {:induction false} OneLowStepPerDrop(o: Options, a: Agv, moves: seq<Move>)
    ensures LowSteps(o, a, moves) <= Drops(o, a, moves) + (if IsLow(o, a) && a.vehicle.isDriving then 1 else 0)
    decreases |moves|
  {
    hide Make;
    if moves != [] {
      var a' := Make(o, a, moves[0]);
      LowStepStops(o, a, moves[0]);
      OneLowStepPerDrop(o, a', moves[1..]);
    }
  }
}
