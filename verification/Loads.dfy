/** Picking and dropping: what the sequence of finished picks and drops says about the load. */
module Loads {
  import opened Wrappers
  import opened Actions
  import opened ActionStateMachine
  import opened VirtualAgv

  predicate HandlesLoad(effect: Effect) {
    effect == LoadAdded || effect == LoadRemoved
  }

  /** The finished picks and drops among the linked states reported so far. */
  function Handled(performed: seq<Effect>): seq<Effect> {
    if performed == [] then []
    else
      Handled(performed[..|performed| - 1]) +
      if HandlesLoad(performed[|performed| - 1]) then [performed[|performed| - 1]] else []
  }

  lemma HandledExtends(performed: seq<Effect>, effect: Effect)
    ensures Handled(performed + [effect]) == Handled(performed) + if HandlesLoad(effect) then [effect] else []
  {
    assert (performed + [effect])[..|performed|] == performed;
  }

  function CountOf(handled: seq<Effect>, effect: Effect): nat {
    multiset(handled)[effect]
  }

  /** Picks and drops take turns, starting with a pick. */
  predicate Alternating(handled: seq<Effect>) {
    forall i :: 0 <= i < |handled| ==> handled[i] == if i % 2 == 0 then LoadAdded else LoadRemoved
  }

  lemma {:induction false} AlternatingCounts(handled: seq<Effect>)
    requires Alternating(handled)
    ensures CountOf(handled, LoadAdded) == CountOf(handled, LoadRemoved) + |handled| % 2
  {
    if handled != [] {
      hide Alternating;
      var shorter, last := handled[..|handled| - 1], handled[|handled| - 1];
      assert handled == shorter + [last];
      AlternatingPrefix(handled);
      AlternatingCounts(shorter);
    }
  }

  lemma AlternatingPrefix(handled: seq<Effect>)
    requires Alternating(handled) && handled != []
    ensures Alternating(handled[..|handled| - 1])
    ensures handled[|handled| - 1] == if |handled| % 2 == 1 then LoadAdded else LoadRemoved
  {
  }

  /** What the entered status of an action may do to the load. */
  predicate Picks(setup: Setup) {
    setup.def.executable == IfUnloaded && forall s :: LinkedEffect(setup.def, s) != LoadRemoved
  }

  predicate Drops(setup: Setup) {
    setup.def.executable == IfLoaded && forall s :: LinkedEffect(setup.def, s) != LoadAdded
  }

  predicate Loader(setup: Setup) {
    exists s :: HandlesLoad(LinkedEffect(setup.def, s))
  }

  /** Actions handle the load when they end, and check for the opposite load state when they are executed. */
  predicate HandlesProperly(setup: Setup) {
    && (Loader(setup) ==> Picks(setup) || Drops(setup))
    && (forall s :: HandlesLoad(LinkedEffect(setup.def, s)) ==> Terminal(s))
  }

  /** No two picks or drops are live at the same time. */
  predicate Exclusive(a: Agv) {
    forall i, j :: 0 <= i < j < |a.machines| ==> !(Loader(a.machines[i].setup) && Loader(a.machines[j].setup))
  }

  predicate LoadInvariant(a: Agv) {
    && Alternating(Handled(a.performed))
    && (a.vehicle.loaded <==> |Handled(a.performed)| % 2 == 1)
    && (forall i :: 0 <= i < |a.machines| ==>
          && HandlesProperly(a.machines[i].setup)
          && (Loader(a.machines[i].setup) && Picks(a.machines[i].setup) ==> !a.vehicle.loaded)
          && (Loader(a.machines[i].setup) && Drops(a.machines[i].setup) ==> a.vehicle.loaded))
  }

  lemma QuietEffectKeepsLoad(a: Agv, self: nat, effect: Effect)
    requires LoadInvariant(a) && !HandlesLoad(effect)
    ensures LoadInvariant(Perform(a, self, effect))
  {
    HandledExtends(a.performed, effect);
    var a' := Perform(a, self, effect);
    assert a.performed + [] == a.performed;
    forall i | 0 <= i < |a.machines| ensures a'.machines[i].setup == a.machines[i].setup {
    }
  }

  lemma LoadEffect(a: Agv, self: nat, effect: Effect)
    requires LoadInvariant(a) && HandlesLoad(effect)
    requires a.vehicle.loaded <==> effect == LoadRemoved
    requires forall i :: 0 <= i < |a.machines| ==> !Loader(a.machines[i].setup)
    ensures LoadInvariant(Perform(a, self, effect))
  {
    hide Handled, HandlesProperly, Loader, Picks, Drops;
    HandledExtends(a.performed, effect);
  }

  lemma AloneKeepsSetup(a: Agv, i: nat, dt: Interval, k: nat)
    requires i < |a.machines| && k < |TickedAlone(a, i, dt).machines|
    ensures var a' := TickedAlone(a, i, dt);
            var from := if |a'.machines| < |a.machines| && k >= i then k + 1 else k;
            from < |a.machines| && a'.machines[k].setup == a.machines[from].setup
  {
    hide OnTick;
  }

  lemma AloneKeepsVehicle(a: Agv, i: nat, dt: Interval)
    requires i < |a.machines|
    ensures TickedAlone(a, i, dt).vehicle == a.vehicle && TickedAlone(a, i, dt).performed == a.performed
  {
  }

  lemma AloneKeepsLoad(a: Agv, i: nat, dt: Interval)
    requires LoadInvariant(a) && i < |a.machines|
    ensures LoadInvariant(TickedAlone(a, i, dt))
  {
    hide TickedAlone, Handled, Alternating, HandlesProperly, Loader, Picks, Drops;
    AloneKeepsVehicle(a, i, dt);
    var alone := TickedAlone(a, i, dt);
    forall k | 0 <= k < |alone.machines|
      ensures HandlesProperly(alone.machines[k].setup)
      ensures Loader(alone.machines[k].setup) && Picks(alone.machines[k].setup) ==> !a.vehicle.loaded
      ensures Loader(alone.machines[k].setup) && Drops(alone.machines[k].setup) ==> a.vehicle.loaded
    {
      AloneKeepsSetup(a, i, dt, k);
    }
  }

  /** An action that handles the load has left the list, and was the only one to do so. */
  lemma LoaderHasLeft(a: Agv, i: nat, dt: Interval)
    requires LoadInvariant(a) && Exclusive(a) && i < |a.machines| && HandlesLoad(EffectOf(a, i, dt))
    ensures a.vehicle.loaded <==> EffectOf(a, i, dt) == LoadRemoved
    ensures forall k :: 0 <= k < |TickedAlone(a, i, dt).machines| ==> !Loader(TickedAlone(a, i, dt).machines[k].setup)
  {
    var m := a.machines[i];
    assert Loader(m.setup) && Terminal(OnTick(m.setup, m.state, dt).1.status.value);
    hide OnTick, Loader;
    forall k | 0 <= k < |TickedAlone(a, i, dt).machines| ensures !Loader(TickedAlone(a, i, dt).machines[k].setup) {
      AloneKeepsSetup(a, i, dt, k);
    }
  }

  lemma TickKeepsLoad(a: Agv, i: nat, dt: Interval)
    requires LoadInvariant(a) && Exclusive(a)
    ensures LoadInvariant(TickMachine(a, i, dt).0)
  {
    if i < |a.machines| {
      hide LoadInvariant, Exclusive, TickedAlone, OnTick, Perform, EffectOf, Loader;
      var effect := EffectOf(a, i, dt);
      AloneKeepsLoad(a, i, dt);
      AloneKeepsVehicle(a, i, dt);
      if HandlesLoad(effect) {
        LoaderHasLeft(a, i, dt);
        LoadEffect(TickedAlone(a, i, dt), a.machines[i].serial, effect);
      } else {
        QuietEffectKeepsLoad(TickedAlone(a, i, dt), a.machines[i].serial, effect);
      }
    }
  }

  lemma AskKeepsLoad(a: Agv, actionId: string, scope: Scope, e: Event)
    requires LoadInvariant(a)
    ensures LoadInvariant(Ask(a, actionId, scope, e))
  {
  }

  lemma ObeyKeepsLoad(a: Agv, c: Command)
    requires LoadInvariant(a) && (c.ExecuteAction? ==> HandlesProperly(c.setup))
    ensures LoadInvariant(Obey(a, c))
  {
    match c
    case FinishEdgeAction(actionId, scope) => AskKeepsLoad(a, actionId, scope, Terminate);
    case CancelAction(actionId, scope) => AskKeepsLoad(a, actionId, scope, Cancel);
    case _ =>
  }

  /** Every state of the run is exclusive, and every executed action handles the load properly. */
  predicate ExclusiveRun(o: Options, a: Agv, moves: seq<Move>)
    decreases |moves|
  {
    Exclusive(a) &&
    (moves != [] ==>
       && (moves[0].Commanded? && moves[0].command.ExecuteAction? ==> HandlesProperly(moves[0].command.setup))
       && ExclusiveRun(o, Make(o, a, moves[0]), moves[1..]))
  }

  lemma {:induction false} RunKeepsLoad(o: Options, a: Agv, moves: seq<Move>)
    requires LoadInvariant(a) && ExclusiveRun(o, a, moves)
    ensures LoadInvariant(Play(o, a, moves))
    decreases |moves|
  {
    if moves != [] {
      var m := moves[0];
      match m {
        case Commanded(c) => ObeyKeepsLoad(a, c);
        case Ticked(i, dt) => TickKeepsLoad(a, i, dt);
        case _ =>
      }
      RunKeepsLoad(o, Make(o, a, m), moves[1..]);
    }
  }

  /**
   In runs in which no two picks or drops are live at the same time, finished picks and drops take turns,
   starting with a pick, and a load is present exactly when one more pick than drops has finished.
   */
  lemma LoadsAlternate(o: Options, x: real, y: real, charge: real, moves: seq<Move>)
    requires ExclusiveRun(o, Attached(o, x, y, charge), moves)
    ensures var a := Play(o, Attached(o, x, y, charge), moves);
            var handled := Handled(a.performed);
            && Alternating(handled)
            && (a.vehicle.loaded <==> CountOf(handled, LoadAdded) == CountOf(handled, LoadRemoved) + 1)
            && (!a.vehicle.loaded <==> CountOf(handled, LoadAdded) == CountOf(handled, LoadRemoved))
  {
    RunKeepsLoad(o, Attached(o, x, y, charge), moves);
    AlternatingCounts(Handled(Play(o, Attached(o, x, y, charge), moves).performed));
  }

  /** The built-in actions handle the load properly. */
  lemma BuiltInsHandleProperly(action: Action, scope: Scope)
    requires BuiltIn(action, scope).Some?
    ensures HandlesProperly(Setup(action, scope, BuiltIn(action, scope).value))
  {
  }

  /* Exactly when ticks can break the alternation */

  predicate TicksOnly(moves: seq<Move>) {
    forall m :: m in moves ==> m.Ticked?
  }

  /** A pick or drop that is neither paused nor asked to end. */
  predicate Ready(m: Machine) {
    && m.setup.def in {LoadDefinition(IfUnloaded, LoadAdded), LoadDefinition(IfLoaded, LoadRemoved)}
    && m.state.status in {None, Some(Initializing), Some(Running)} && !m.state.pause
    && m.state.cancel == NotAsked && m.state.terminate == NotAsked
  }

  predicate LoadersReady(a: Agv) {
    forall i :: 0 <= i < |a.machines| && Loader(a.machines[i].setup) ==> Ready(a.machines[i])
  }

  /** The transitions left until the load is handled. */
  function StepsLeft(m: Machine): nat {
    if m.state.status == None then 3 else if m.state.status == Some(Initializing) then 2 else 1
  }

  function EffectAtEnd(m: Machine): Effect {
    LinkedEffect(m.setup.def, Finished)
  }

  /** The state after the machine at index `i` has handled the load and left the list. */
  function Completed(a: Agv, i: nat): Agv
    requires i < |a.machines|
  {
    var effect := EffectAtEnd(a.machines[i]);
    a.(machines := RemoveAt(a.machines, i), vehicle := PerformOnVehicle(a.vehicle, effect),
       performed := a.performed + [effect])
  }

  lemma ReadyTransition(m: Machine) returns (dt: Interval)
    requires Ready(m)
    ensures var (state, out) := OnTick(m.setup, m.state, dt);
            if StepsLeft(m) > 1
            then Ready(m.(state := state)) && StepsLeft(m.(state := state)) == StepsLeft(m) - 1
                 && out in {Reports(Some(Initializing)), Reports(Some(Running))}
            else out == Reports(Some(Finished))
  {
    if m.state.status == None {
      dt := 0.0;
    } else {
      var s := m.state.status.value;
      var rest := TransitionDuration(DefOf(m.setup.def, s).value, m.setup.action).value - Spent(m.state, s);
      dt := if rest > 0.0 then rest else 0.0;
    }
  }

  lemma ReadyTick(a: Agv, i: nat, dt: Interval)
    requires i < |a.machines| && Ready(a.machines[i])
    ensures var m := a.machines[i];
            var (state, out) := OnTick(m.setup, m.state, dt);
            && (out in {Reports(Some(Initializing)), Reports(Some(Running))} ==>
                  TickMachine(a, i, dt).0 == a.(machines := a.machines[i := m.(state := state)]))
            && (out == Reports(Some(Finished)) ==> TickMachine(a, i, dt).0 == Completed(a, i))
  {
    hide OnTick;
  }

  /** Ticks alone bring a ready pick or drop to its end, whatever else is listed. */
  lemma {:induction false} LoaderEnds(o: Options, a: Agv, i: nat) returns (moves: seq<Move>)
    requires i < |a.machines| && Ready(a.machines[i])
    ensures TicksOnly(moves) && Play(o, a, moves) == Completed(a, i)
    decreases StepsLeft(a.machines[i])
  {
    hide Ready, StepsLeft, OnTick, TickMachine, EffectAtEnd;
    var m := a.machines[i];
    var dt := ReadyTransition(m);
    ReadyTick(a, i, dt);
    var a' := Make(o, a, Ticked(i, dt));
    if OnTick(m.setup, m.state, dt).1 == Reports(Some(Finished)) {
      moves := [Ticked(i, dt)];
      assert moves[1..] == [];
    } else {
      assert EffectAtEnd(a'.machines[i]) == EffectAtEnd(m) by {
        SameEnd(m, a'.machines[i]);
      }
      var rest := LoaderEnds(o, a', i);
      moves := [Ticked(i, dt)] + rest;
      assert moves[1..] == rest;
      assert RemoveAt(a'.machines, i) == RemoveAt(a.machines, i);
    }
  }

  lemma SameEnd(m: Machine, m': Machine)
    requires m'.setup == m.setup
    ensures EffectAtEnd(m') == EffectAtEnd(m)
  {
  }

  lemma EndsOfReady(m: Machine)
    requires Ready(m)
    ensures Loader(m.setup) && HandlesLoad(EffectAtEnd(m))
    ensures EffectAtEnd(m) == if m.setup.def.executable == IfUnloaded then LoadAdded else LoadRemoved
    ensures Picks(m.setup) <==> EffectAtEnd(m) == LoadAdded
    ensures Drops(m.setup) <==> EffectAtEnd(m) == LoadRemoved
  {
    assert HandlesLoad(LinkedEffect(m.setup.def, Finished));
  }

  lemma PerformKeepsSetup(a: Agv, self: nat, effect: Effect, k: nat)
    requires k < |a.machines|
    ensures |Perform(a, self, effect).machines| == |a.machines|
    ensures Perform(a, self, effect).machines[k].setup == a.machines[k].setup
  {
  }

  /** Where the k-th entry of the list comes from. */
  lemma SetupKept(a: Agv, i: nat, dt: Interval, k: nat)
    requires k < |TickMachine(a, i, dt).0.machines|
    ensures var a' := TickMachine(a, i, dt).0;
            var from := if |a'.machines| < |a.machines| && k >= i then k + 1 else k;
            from < |a.machines| && a'.machines[k].setup == a.machines[from].setup
  {
    if i < |a.machines| {
      hide OnTick, Perform, TickedAlone;
      var alone := TickedAlone(a, i, dt);
      if alone.machines != [] {
        PerformKeepsSetup(alone, a.machines[i].serial, EffectOf(a, i, dt), if k < |alone.machines| then k else 0);
      } else {
        NothingToPause(alone, a.machines[i].serial, EffectOf(a, i, dt));
      }
      AloneKeepsSetup(a, i, dt, k);
    }
  }

  lemma NothingToPause(a: Agv, self: nat, effect: Effect)
    requires a.machines == []
    ensures Perform(a, self, effect).machines == []
  {
  }

  /** Ticks keep it that at most one pick or drop is live. */
  lemma TickKeepsExclusive(a: Agv, i: nat, dt: Interval)
    requires Exclusive(a)
    ensures Exclusive(TickMachine(a, i, dt).0)
  {
    hide Loader, TickMachine;
    var a' := TickMachine(a, i, dt).0;
    forall j, k | 0 <= j < k < |a'.machines| ensures !(Loader(a'.machines[j].setup) && Loader(a'.machines[k].setup)) {
      SetupKept(a, i, dt, j);
      SetupKept(a, i, dt, k);
    }
  }

  /** With at most one pick or drop live, ticks keep the alternation. */
  lemma {:induction false} TicksAlternate(o: Options, a: Agv, moves: seq<Move>)
    requires LoadInvariant(a) && Exclusive(a) && TicksOnly(moves)
    ensures Alternating(Handled(Play(o, a, moves).performed))
    decreases |moves|
  {
    hide Exclusive, TickMachine, HandlesProperly;
    if moves != [] {
      var i, dt := moves[0].index, moves[0].dt;
      TickKeepsLoad(a, i, dt);
      TickKeepsExclusive(a, i, dt);
      TicksAlternate(o, TickMachine(a, i, dt).0, moves[1..]);
    }
  }

  lemma HandledTwice(performed: seq<Effect>, effect: Effect)
    requires HandlesLoad(effect)
    ensures !Alternating(Handled(performed + [effect] + [effect]))
  {
    hide Handled;
    HandledExtends(performed, effect);
    HandledExtends(performed + [effect], effect);
    var n := |Handled(performed)|;
    var all := Handled(performed + [effect] + [effect]);
    assert all[n] == effect && all[n + 1] == effect;
  }

  lemma TwoLoadersBreak(o: Options, a: Agv, i: nat, j: nat) returns (moves: seq<Move>)
    requires LoadInvariant(a) && i < j < |a.machines| && Ready(a.machines[i]) && Ready(a.machines[j])
    ensures TicksOnly(moves) && !Alternating(Handled(Play(o, a, moves).performed))
  {
    hide Ready, EffectAtEnd, Alternating, Handled;
    EndsOfReady(a.machines[i]);
    EndsOfReady(a.machines[j]);
    assert EffectAtEnd(a.machines[i]) == EffectAtEnd(a.machines[j]);
    var first := LoaderEnds(o, a, j);
    var a' := Completed(a, j);
    assert a'.machines[i] == a.machines[i];
    var second := LoaderEnds(o, a', i);
    moves := first + second;
    PlayConcat(o, a, first, second);
    HandledTwice(a.performed, EffectAtEnd(a.machines[i]));
  }

  predicate IsPick(setup: Setup) {
    setup.def == LoadDefinition(IfUnloaded, LoadAdded) && !ControlsPause(setup)
  }

  lemma PicksExecuted(a: Agv, first: Setup, second: Setup)
    requires IsPick(first) && IsPick(second) && a.machines == [] && !a.vehicle.loaded && !a.vehicle.isPaused
    ensures var a' := Obey(Obey(a, ExecuteAction(first, false, false)), ExecuteAction(second, false, false));
            && |a'.machines| == 2 && a'.performed == a.performed
            && forall i :: 0 <= i < 2 ==> Ready(a'.machines[i]) && EffectAtEnd(a'.machines[i]) == LoadAdded
  {
  }

  /**
   The premise cannot be dropped: two picks executed one after the other while no load is present
   both finish, so that two picks follow each other.
   */
  lemma TwoPicksBreakAlternation(o: Options, a: Agv, first: Setup, second: Setup) returns (ticks: seq<Move>)
    requires IsPick(first) && IsPick(second) && a.machines == [] && !a.vehicle.loaded && !a.vehicle.isPaused
    ensures TicksOnly(ticks)
    ensures var both := [Commanded(ExecuteAction(first, false, false)), Commanded(ExecuteAction(second, false, false))];
            Handled(Play(o, a, both + ticks).performed) == Handled(a.performed) + [LoadAdded, LoadAdded]
  {
    hide Ready, EffectAtEnd, Obey, IsPick, Handled;
    var c1, c2 := ExecuteAction(first, false, false), ExecuteAction(second, false, false);
    var both := [Commanded(c1), Commanded(c2)];
    var a2 := Obey(Obey(a, c1), c2);
    assert both[1..] == [Commanded(c2)] && both[1..][1..] == [];
    assert Play(o, Obey(a, c1), both[1..]) == Play(o, a2, []);
    PicksExecuted(a, first, second);
    var one := LoaderEnds(o, a2, 1);
    var a3 := Completed(a2, 1);
    var other := LoaderEnds(o, a3, 0);
    ticks := one + other;
    PlayConcat(o, a2, one, other);
    PlayConcat(o, a, both, ticks);
    HandledExtends(a.performed, LoadAdded);
    HandledExtends(a.performed + [LoadAdded], LoadAdded);
    assert Handled(a.performed) + [LoadAdded] + [LoadAdded] == Handled(a.performed) + [LoadAdded, LoadAdded];
  }

  /**
   From a state that keeps the load invariant, and in which no pick or drop is paused or asked to end: some ticks
   break the alternation exactly if two picks or drops are live.
   */
  lemma TicksBreakAlternationExactly(o: Options, a: Agv)
    requires LoadInvariant(a) && LoadersReady(a)
    ensures (exists moves :: TicksOnly(moves) && !Alternating(Handled(Play(o, a, moves).performed))) <==> !Exclusive(a)
  {
    hide LoadInvariant, Loader, Ready, Alternating, Handled;
    if Exclusive(a) {
      forall moves | TicksOnly(moves) ensures Alternating(Handled(Play(o, a, moves).performed)) {
        TicksAlternate(o, a, moves);
      }
    } else {
      var i, j :| 0 <= i < j < |a.machines| && Loader(a.machines[i].setup) && Loader(a.machines[j].setup);
      var _ := TwoLoadersBreak(o, a, i, j);
    }
  }
}
