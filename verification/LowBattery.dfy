/**
 The low-battery error: it is published when the vehicle stops with a low battery, and to be removed once the
 charge is ten percent above the threshold. The adapter forgets it then even on ticks that do not report. The
 controller drops it whenever it accepts an order.
 */
module LowBattery {
  import opened Wrappers
  import opened Geometry
  import opened ActionStateMachine
  import opened VirtualAgv
  import opened Motion

  /* One tick */

  predicate NoDuplicates(errors: seq<real>) {
    forall i, j :: 0 <= i < j < |errors| ==> errors[i] != errors[j]
  }

  lemma {:induction false} RemovedIsGone(errors: seq<real>, error: real, other: real)
    requires NoDuplicates(errors)
    ensures NoDuplicates(RemoveError(errors, error))
    ensures other in RemoveError(errors, error) <==> other in errors && other != error
  {
    if errors != [] && errors[0] != error {
      RemovedIsGone(errors[1..], error, other);
      RemovedIsGone(errors[1..], error, errors[0]);
      assert errors == [errors[0]] + errors[1..];
      assert errors[0] !in errors[1..];
    } else if errors != [] {
      assert errors == [errors[0]] + errors[1..];
      assert errors[0] !in errors[1..];
    }
  }

  /** The published errors are told apart, and the remembered one is among them. */
  predicate ErrorsListed(a: Agv) {
    NoDuplicates(a.shownErrors) && (a.lowError.Some? ==> a.lowError.value in a.shownErrors)
  }

  /** The tick raises the charge to ten percent above the threshold, or finds it there. */
  predicate Recovers(o: Options, a: Agv, m: Move) {
    && m.Charged? && a.vehicle.charging && !a.vehicle.isPaused
    && Make(o, a, m).vehicle.charge >= o.lowBatteryChargeThreshold + 10.0
  }

  predicate ReportsCharge(o: Options, m: Move)
    requires m.Charged?
  {
    m.tick % UpdateTicks(o, m.tickInterval) == 0
  }

  /**
   The adapter forgets the error exactly at a tick that recovers the charge, and the published state loses it
   exactly if that tick also is one that reports the charge. All other errors stay as they are.
   */
  lemma LowBatteryErrorRemoved(o: Options, a: Agv, tick: nat, tickInterval: Positive, dt: Interval, other: real)
    requires NoDuplicates(a.shownErrors) && a.lowError.Some?
    ensures var m := Charged(tick, tickInterval, dt);
            var a' := Make(o, a, m);
            && (a'.lowError == None <==> Recovers(o, a, m))
            && (a.lowError.value in a'.shownErrors <==>
                  a.lowError.value in a.shownErrors && !(Recovers(o, a, m) && ReportsCharge(o, m)))
            && (other != a.lowError.value ==> (other in a'.shownErrors <==> other in a.shownErrors))
  {
    RemovedIsGone(a.shownErrors, a.lowError.value, a.lowError.value);
    RemovedIsGone(a.shownErrors, a.lowError.value, other);
  }

  /* Runs */

  lemma MotionListsErrors(o: Options, a: Agv, dt: Interval)
    requires NoDuplicates(a.shownErrors)
    ensures NoDuplicates(AdvanceTraverse(o, a, dt).shownErrors)
    ensures ErrorsListed(a) ==> ErrorsListed(AdvanceTraverse(o, a, dt))
  {
    hide Discharge, Square;
  }

  lemma ChargingListsErrors(o: Options, a: Agv, tick: nat, tickInterval: Positive, dt: Interval)
    requires NoDuplicates(a.shownErrors)
    ensures NoDuplicates(AdvanceCharge(o, a, tick, tickInterval, dt).shownErrors)
    ensures ErrorsListed(a) ==> ErrorsListed(AdvanceCharge(o, a, tick, tickInterval, dt))
  {
    if a.lowError.Some? {
      RemovedIsGone(a.shownErrors, a.lowError.value, a.lowError.value);
    }
  }

  /** No command and no action touches the errors. */
  lemma OtherMovesKeepErrors(o: Options, a: Agv, m: Move)
    requires m.Commanded? || m.Ticked?
    ensures Make(o, a, m).lowError == a.lowError && Make(o, a, m).shownErrors == a.shownErrors
  {
    hide OnTick;
  }

  lemma MoveListsErrors(o: Options, a: Agv, m: Move)
    requires NoDuplicates(a.shownErrors)
    ensures NoDuplicates(Make(o, a, m).shownErrors)
    ensures ErrorsListed(a) && !m.OrderAccepted? ==> ErrorsListed(Make(o, a, m))
  {
    hide Make, NoDuplicates;
    match m
    case Driven(dt) => MotionListsErrors(o, a, dt); MakeDriven(o, a, dt);
    case Charged(tick, tickInterval, dt) =>
      ChargingListsErrors(o, a, tick, tickInterval, dt);
      MakeCharged(o, a, tick, tickInterval, dt);
    case OrderAccepted(stitched) => OrderDropsErrors(o, a, stitched);
    case _ => OtherMovesKeepErrors(o, a, m);
  }

  lemma {:induction false} NothingKept(errors: seq<real>, stitched: bool)
    ensures KeepErrors(errors, stitched) == []
  {
    if errors != [] {
      NothingKept(errors[1..], stitched);
    }
  }

  /** Whatever kind of order is accepted, no low-battery error is kept. */
  lemma OrderDropsErrors(o: Options, a: Agv, stitched: bool)
    ensures Make(o, a, OrderAccepted(stitched)) == a.(shownErrors := []) && NoDuplicates([])
  {
    NothingKept(a.shownErrors, stitched);
  }

  lemma MakeDriven(o: Options, a: Agv, dt: Interval)
    ensures Make(o, a, Driven(dt)) == AdvanceTraverse(o, a, dt)
  {
  }

  lemma MakeCharged(o: Options, a: Agv, tick: nat, tickInterval: Positive, dt: Interval)
    ensures Make(o, a, Charged(tick, tickInterval, dt)) == AdvanceCharge(o, a, tick, tickInterval, dt)
  {
  }

  predicate AcceptsOrder(moves: seq<Move>) {
    exists m :: m in moves && m.OrderAccepted?
  }

  lemma FirstOrLater(moves: seq<Move>)
    ensures AcceptsOrder(moves) <==> moves != [] && (moves[0].OrderAccepted? || AcceptsOrder(moves[1..]))
  {
    if moves != [] {
      assert moves == [moves[0]] + moves[1..];
    }
  }

  /**
   From `attach` on, over every run: no error is published twice, and unless an order is accepted the remembered
   one is published.
   */
  lemma {:induction false} RunsListErrors(o: Options, a: Agv, moves: seq<Move>)
    requires NoDuplicates(a.shownErrors)
    ensures NoDuplicates(Play(o, a, moves).shownErrors)
    ensures ErrorsListed(a) && !AcceptsOrder(moves) ==> ErrorsListed(Play(o, a, moves))
    decreases |moves|
  {
    hide ErrorsListed, NoDuplicates, Make, AcceptsOrder;
    FirstOrLater(moves);
    if moves != [] {
      MoveListsErrors(o, a, moves[0]);
      RunsListErrors(o, Make(o, a, moves[0]), moves[1..]);
    }
  }

  /** The vehicle makes a step on a low battery, and so stops before it arrives. */
  predicate StopsLow(o: Options, a: Agv, m: Move) {
    IsDriveStep(a, m) && IsLow(o, a) && Make(o, a, m).route.Some?
  }

  /** Exactly a stop on a low battery makes the adapter remember an error, and exactly a recovery forgets it. */
  lemma MoveRemembers(o: Options, a: Agv, m: Move)
    ensures var a' := Make(o, a, m);
            a'.lowError ==
            if StopsLow(o, a, m) then Some(a'.vehicle.charge) else if Recovers(o, a, m) then None else a.lowError
  {
    hide Discharge, Square, ChargeRate, UpdateTicks, RemoveError;
    if m.Commanded? || m.Ticked? {
      OtherMovesKeepErrors(o, a, m);
    }
  }

  /**
   Exactly a stop on a low battery publishes an error, and exactly an accepted order or a recovery that is
   reported withdraws it.
   */
  lemma MoveShows(o: Options, a: Agv, m: Move, error: real)
    requires NoDuplicates(a.shownErrors)
    ensures var a' := Make(o, a, m);
            error in a'.shownErrors <==>
              || (StopsLow(o, a, m) && a'.vehicle.charge == error)
              || (error in a.shownErrors && !m.OrderAccepted?
                  && !(a.lowError == Some(error) && Recovers(o, a, m) && ReportsCharge(o, m)))
  {
    hide Discharge, Square, ChargeRate, UpdateTicks;
    match m
    case Driven(dt) =>
    case Charged(tick, tickInterval, dt) =>
      if a.lowError.Some? {
        RemovedIsGone(a.shownErrors, a.lowError.value, error);
      }
    case OrderAccepted(stitched) => OrderDropsErrors(o, a, stitched);
    case _ => OtherMovesKeepErrors(o, a, m);
  }

  /** No stop on a low battery quotes the charge of this error. */
  predicate NeverQuotes(o: Options, a: Agv, moves: seq<Move>, error: real)
    decreases |moves|
  {
    moves != [] ==>
      var a' := Make(o, a, moves[0]);
      !(StopsLow(o, a, moves[0]) && a'.vehicle.charge == error) && NeverQuotes(o, a', moves[1..], error)
  }

  /**
   An error that the adapter does not remember stays published until an order is accepted, unless the vehicle
   stops with the same charge again.
   */
  lemma {:induction false} ForgottenErrorStays(o: Options, a: Agv, moves: seq<Move>, error: real)
    requires NoDuplicates(a.shownErrors) && a.lowError != Some(error) && NeverQuotes(o, a, moves, error)
    ensures error in Play(o, a, moves).shownErrors <==> error in a.shownErrors && !AcceptsOrder(moves)
    decreases |moves|
  {
    hide NoDuplicates, Make, StopsLow, Recovers, ReportsCharge, AcceptsOrder;
    FirstOrLater(moves);
    if moves != [] {
      MoveListsErrors(o, a, moves[0]);
      MoveRemembers(o, a, moves[0]);
      MoveShows(o, a, moves[0], error);
      ForgottenErrorStays(o, Make(o, a, moves[0]), moves[1..], error);
    }
  }

  /** Before the vehicle stops on a low battery again, the charge recovers, at a tick that reports it. */
  predicate ReleasedInTime(o: Options, a: Agv, moves: seq<Move>)
    decreases |moves|
  {
    && moves != [] && !StopsLow(o, a, moves[0])
    && if Recovers(o, a, moves[0]) then ReportsCharge(o, moves[0])
       else ReleasedInTime(o, Make(o, a, moves[0]), moves[1..])
  }

  /**
   Over every run, whatever else happens: the remembered error, if it is published, is gone afterwards exactly
   if an order has been accepted, or the charge has recovered at a tick that reports it before the vehicle
   stopped on a low battery again. (A later stop with the same charge publishes and remembers it anew.)
   */
  lemma {:induction false} ErrorGoneExactlyIfReleased(o: Options, a: Agv, moves: seq<Move>, error: real)
    requires NoDuplicates(a.shownErrors) && a.lowError == Some(error) && NeverQuotes(o, a, moves, error)
    ensures error in Play(o, a, moves).shownErrors <==>
              error in a.shownErrors && !AcceptsOrder(moves) && !ReleasedInTime(o, a, moves)
    decreases |moves|
  {
    hide NoDuplicates, Make, StopsLow, Recovers, ReportsCharge, AcceptsOrder;
    FirstOrLater(moves);
    if moves != [] {
      var a', m := Make(o, a, moves[0]), moves[0];
      MoveListsErrors(o, a, m);
      MoveRemembers(o, a, m);
      MoveShows(o, a, m, error);
      OneKind(o, a, m);
      if a'.lowError == Some(error) {
        ErrorGoneExactlyIfReleased(o, a', moves[1..], error);
      } else {
        ForgottenErrorStays(o, a', moves[1..], error);
      }
    }
  }

  lemma OneKind(o: Options, a: Agv, m: Move)
    ensures Recovers(o, a, m) ==> m.Charged?
    ensures StopsLow(o, a, m) ==> m.Driven?
  {
  }
}
