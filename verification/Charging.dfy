/** Charging over time: linear in time, until the battery is full, and full after the configured number of hours. */
module Charging {
  import opened Geometry
  import opened VirtualAgv

  /** The vehicle stands on a charging spot: motion and charging are advanced, and nothing else happens. */
  predicate OnlyTime(moves: seq<Move>) {
    forall i :: 0 <= i < |moves| ==> moves[i].Charged? || moves[i].Driven?
  }

  function ChargingTime(moves: seq<Move>): (t: real)
    ensures t >= 0.0
  {
    if moves == [] then 0.0
    else (if moves[0].Charged? then moves[0].dt else 0.0) + ChargingTime(moves[1..])
  }

  predicate AtChargingSpot(a: Agv) {
    a.route.None? && !a.vehicle.isPaused && a.vehicle.charge <= 100.0
  }

  /** The charge after some time at the given rate. */
  function Raised(rate: Positive, charge: real, time: real): real {
    if charge + rate * time < 100.0 then charge + rate * time else 100.0
  }

  lemma RaisedTwice(rate: Positive, charge: real, t1: real, t2: real)
    requires charge <= 100.0 && t1 >= 0.0 && t2 >= 0.0
    ensures Raised(rate, charge, t1) < 100.0 ==>
              Raised(rate, Raised(rate, charge, t1), t2) == Raised(rate, charge, t1 + t2)
    ensures Raised(rate, charge, t1) == 100.0 ==> Raised(rate, charge, t1 + t2) == 100.0
    ensures Raised(rate, charge, 0.0) == charge && Raised(rate, charge, t1) <= 100.0
  {
    var p1, p2, p := rate * t1, rate * t2, rate * (t1 + t2);
    assert p == p1 + p2;
    assert p2 >= 0.0;
  }

  /** A vehicle that does not charge and has no route stays as it is. */
  lemma {:induction false} StaysFull(o: Options, a: Agv, moves: seq<Move>)
    requires AtChargingSpot(a) && !a.vehicle.charging && OnlyTime(moves)
    ensures Play(o, a, moves) == a
    decreases |moves|
  {
    if moves != [] {
      StaysFull(o, a, moves[1..]);
    }
  }

  lemma ChargeStep(o: Options, a: Agv, m: Move)
    requires AtChargingSpot(a) && a.vehicle.charging && (m.Charged? || m.Driven?)
    ensures var a' := Make(o, a, m);
            && AtChargingSpot(a')
            && (m.Driven? ==> a' == a)
            && (m.Charged? ==> a'.vehicle.charge == Raised(ChargeRate(o), a.vehicle.charge, m.dt)
                               && (a'.vehicle.charging <==> a'.vehicle.charge != 100.0))
  {
    hide ChargeRate, UpdateTicks, BatteryReach;
  }

  /** The charge rises linearly with time up to 100, and charging ends exactly when it is reached. */
  lemma {:induction false} ChargeIsLinear(o: Options, a: Agv, moves: seq<Move>)
    requires AtChargingSpot(a) && a.vehicle.charging && a.vehicle.charge < 100.0 && OnlyTime(moves)
    ensures var v := Play(o, a, moves).vehicle;
            && v.charge == Raised(ChargeRate(o), a.vehicle.charge, ChargingTime(moves))
            && (v.charging <==> v.charge < 100.0)
    decreases |moves|
  {
    hide ChargeRate, Make, Raised;
    if moves == [] {
      RaisedTwice(ChargeRate(o), a.vehicle.charge, 0.0, 0.0);
    } else {
      var a', dt, rest := Make(o, a, moves[0]), if moves[0].Charged? then moves[0].dt else 0.0, ChargingTime(moves[1..]);
      ChargeStep(o, a, moves[0]);
      RaisedTwice(ChargeRate(o), a.vehicle.charge, dt, rest);
      if a'.vehicle.charging {
        ChargeIsLinear(o, a', moves[1..]);
      } else {
        StaysFull(o, a', moves[1..]);
      }
    }
  }

  /** Seconds in which an empty battery is charged: the option gives hours. */
  function FullChargeSeconds(o: Options): Positive {
    3600.0 * o.fullBatteryChargeTime
  }

  lemma RateOfFullCharge(o: Options, time: real)
    ensures Raised(ChargeRate(o), 0.0, time) == 100.0 <==> time >= FullChargeSeconds(o)
  {
    var rate, full := ChargeRate(o), FullChargeSeconds(o);
    assert rate * full == 100.0;
    if time > full {
      var p := MulPositive(rate, time - full);
    } else if time < full {
      var p := MulPositive(rate, full - time);
    }
  }

  /** An empty battery is full exactly once it has been charged for the configured number of hours. */
  lemma EmptyBatteryFillsInTime(o: Options, a: Agv, moves: seq<Move>)
    requires AtChargingSpot(a) && a.vehicle.charging && a.vehicle.charge == 0.0 && OnlyTime(moves)
    ensures Play(o, a, moves).vehicle.charge == 100.0 <==> ChargingTime(moves) >= FullChargeSeconds(o)
  {
    hide ChargeRate, FullChargeSeconds, Play, Raised;
    ChargeIsLinear(o, a, moves);
    RateOfFullCharge(o, ChargingTime(moves));
  }
}
