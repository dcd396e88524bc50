/**
 Action definitions of the virtual AGV: the statuses an action runs through, how long it stays in
 each of them, and the closed-form estimate of the time it takes.
 */
module Actions {
  import opened Wrappers

  datatype Status = Initializing | Running | Paused | Finished | Failed

  datatype Scope = InstantScope | NodeScope | EdgeScope

  /** The `durationTime` of a status: a number, or an action parameter with a default. */
  datatype DurationTime = Seconds(seconds: real) | Parameter(key: string, default: real)

  /** A status that is left by the clock. `duration` is None if no `durationTime` is given. */
  datatype StatusDef = StatusDef(duration: Option<DurationTime>, next: Status)

  /** What the `linkedState` function of a status does to the vehicle when the status is entered. */
  datatype Effect =
    | NoEffect
    | LoadAdded
    | LoadRemoved
    | InitPosition(x: real, y: real)
    | StartPause
    | StopPause
    | StartCharging
    | StopCharging

  /** The `actionExecutable` check, made on the vehicle state at the moment of execution. */
  datatype Guard = Always | IfUnloaded | IfLoaded | IfNotPaused | IfPaused | IfChargeable | IfCharging

  datatype Definition = Definition(
    executable: Guard,
    onInit: Status,
    cancelable: bool,
    onTerminate: Option<Status>,
    initializing: Option<StatusDef>,
    running: Option<StatusDef>,
    linked: map<Status, Effect>)

  datatype Action = Action(actionId: string, actionType: string, parameters: seq<(string, real)>)

  predicate Terminal(s: Status) {
    s == Finished || s == Failed
  }

  function DefOf(def: Definition, s: Status): Option<StatusDef> {
    match s
    case Initializing => def.initializing
    case Running => def.running
    case _ => None
  }

  function LinkedEffect(def: Definition, s: Status): Effect {
    if s in def.linked then def.linked[s] else NoEffect
  }

  /** The first parameter with the given key, as `Array.find` returns it. */
  function ParameterValue(parameters: seq<(string, real)>, key: string): Option<real> {
    if parameters == [] then None
    else if parameters[0].0 == key then Some(parameters[0].1)
    else ParameterValue(parameters[1..], key)
  }

  function TransitionDuration(sd: StatusDef, action: Action): Option<real> {
    match sd.duration
    case None => None
    case Some(Seconds(t)) => Some(t)
    case Some(Parameter(key, default)) =>
      match ParameterValue(action.parameters, key)
      case Some(v) => Some(v)
      case None => Some(default)
  }

  /** The targets that the declared type of an action definition allows. */
  predicate TypeCorrect(def: Definition) {
    && def.onInit in {Initializing, Running, Finished}
    && (def.onTerminate.Some? ==> Terminal(def.onTerminate.value))
    && (def.initializing.Some? ==>
          def.initializing.value.duration.Some? && def.initializing.value.next in {Paused, Running, Failed})
    && (def.running.Some? ==>
          def.running.value.duration.Some? && def.running.value.next in {Paused, Finished, Failed})
  }

  /** No clock-driven transition names PAUSED: such a status would have nothing to resume to. */
  predicate NeverNamesPaused(def: Definition) {
    && (def.initializing.Some? ==> def.initializing.value.next != Paused)
    && (def.running.Some? ==> def.running.value.next != Paused)
  }

  /** Every status that a transition names and that does not end the action is itself defined. */
  predicate Closed(def: Definition) {
    && (Terminal(def.onInit) || DefOf(def, def.onInit).Some?)
    && (def.initializing.Some? && def.initializing.value.next == Running ==> def.running.Some?)
  }

  /** A definition whose clock-driven path leads from ON_INIT to a terminal status. */
  predicate Sound(def: Definition) {
    TypeCorrect(def) && NeverNamesPaused(def) && Closed(def)
  }

  /** Sound, and with the ON_TERMINATE that is mandatory for edge actions. */
  predicate SoundFor(def: Definition, scope: Scope) {
    Sound(def) && (scope == EdgeScope ==> def.onTerminate.Some?)
  }

  /** Upper bound of the number of statuses still to be visited. */
  function Rank(s: Status): nat {
    match s
    case Initializing => 2
    case Running => 1
    case _ => 0
  }

  /** The statuses visited from `s` on by an action that is neither paused, canceled nor terminated. */
  function PathFrom(def: Definition, s: Status): (path: seq<Status>)
    requires Sound(def) && s != Paused
    requires Terminal(s) || DefOf(def, s).Some?
    decreases Rank(s)
  {
    if Terminal(s) then [] else [s] + PathFrom(def, DefOf(def, s).value.next)
  }

  /** The seconds an action has to stay in status `s`. */
  function DurationOf(def: Definition, action: Action, s: Status): real
    requires Sound(def) && DefOf(def, s).Some?
  {
    TransitionDuration(DefOf(def, s).value, action).value
  }

  function TotalDuration(def: Definition, action: Action, path: seq<Status>): real
    requires Sound(def)
    requires forall s :: s in path ==> DefOf(def, s).Some?
  {
    if path == [] then 0.0 else DurationOf(def, action, path[0]) + TotalDuration(def, action, path[1..])
  }

  lemma {:induction false} PathIsDefined(def: Definition, s: Status)
    requires Sound(def) && s != Paused
    requires Terminal(s) || DefOf(def, s).Some?
    ensures forall r :: r in PathFrom(def, s) ==> DefOf(def, r).Some? && Rank(r) <= Rank(s)
    ensures |PathFrom(def, s)| <= Rank(s)
    decreases Rank(s)
  {
    if !Terminal(s) {
      PathIsDefined(def, DefOf(def, s).value.next);
    }
  }

  /** The time from entering `s` to the end of the action. */
  function EstimateFrom(def: Definition, action: Action, s: Status): real
    requires Sound(def) && s != Paused
    requires Terminal(s) || DefOf(def, s).Some?
  {
    PathIsDefined(def, s);
    TotalDuration(def, action, PathFrom(def, s))
  }

  predicate NonNegativeDurations(def: Definition, action: Action)
    requires Sound(def)
  {
    forall s :: DefOf(def, s).Some? ==> DurationOf(def, action, s) >= 0.0
  }

  lemma EstimateUnfolds(def: Definition, action: Action, s: Status)
    requires Sound(def) && DefOf(def, s).Some?
    ensures var next := DefOf(def, s).value.next;
            EstimateFrom(def, action, s) == DurationOf(def, action, s) + EstimateFrom(def, action, next)
    ensures var next := DefOf(def, s).value.next;
            |PathFrom(def, s)| == 1 + |PathFrom(def, next)|
  {
    PathIsDefined(def, s);
    var path := PathFrom(def, s);
    assert path[1..] == PathFrom(def, DefOf(def, s).value.next);
  }

  lemma {:induction false} EstimateNonNegative(def: Definition, action: Action, s: Status)
    requires Sound(def) && s != Paused && NonNegativeDurations(def, action)
    requires Terminal(s) || DefOf(def, s).Some?
    ensures EstimateFrom(def, action, s) >= 0.0
    decreases Rank(s)
  {
    if !Terminal(s) {
      EstimateUnfolds(def, action, s);
      EstimateNonNegative(def, action, DefOf(def, s).value.next);
    }
  }

  /** The estimate loop: it ends because each status it visits has a smaller rank. */
  method GetNodeActionDuration(def: Definition, action: Action) returns (duration: real)
    requires Sound(def)
    ensures duration == EstimateFrom(def, action, def.onInit)
  {
    duration := 0.0;
    var state := def.onInit;
    while state != Finished && state != Failed
      invariant state != Paused && (Terminal(state) || DefOf(def, state).Some?)
      invariant duration + EstimateFrom(def, action, state) == EstimateFrom(def, action, def.onInit)
      decreases Rank(state)
    {
      EstimateUnfolds(def, action, state);
      var transition := DefOf(def, state).value;
      var transitionDuration := TransitionDuration(transition, action);
      if transitionDuration.Some? {
        duration := duration + transitionDuration.value;
      }
      state := transition.next;
    }
  }

  /* Built-in definitions */

  function Param(default: real): Option<DurationTime> {
    Some(Parameter("duration", default))
  }

  /** Two timed statuses, then FINISHED with the given effect on the load. */
  function LoadDefinition(executable: Guard, effect: Effect): Definition {
    Definition(executable, Initializing, true, None,
               Some(StatusDef(Some(Seconds(1.0)), Running)), Some(StatusDef(Param(5.0), Finished)),
               map[Finished := effect])
  }

  /** One timed status, then FINISHED with the given effect. */
  function TimedDefinition(executable: Guard, default: real, effect: Effect): Definition {
    Definition(executable, Running, true, None,
               None, Some(StatusDef(Param(default), Finished)), map[Finished := effect])
  }

  /** FINISHED at once, with the given effect. */
  function ImmediateDefinition(executable: Guard, cancelable: bool, effect: Effect): Definition {
    Definition(executable, Finished, cancelable, None, None, None, map[Finished := effect])
  }

  /** The built-in definition of an action in a scope; None if it is not supported there. */
  function BuiltIn(action: Action, scope: Scope): Option<Definition> {
    match action.actionType
    case "noop" => Some(TimedDefinition(Always, 5.0, NoEffect))
    case "pick" => if scope == NodeScope then Some(LoadDefinition(IfUnloaded, LoadAdded)) else None
    case "drop" => if scope == NodeScope then Some(LoadDefinition(IfLoaded, LoadRemoved)) else None
    case "initPosition" =>
      var x, y := ParameterValue(action.parameters, "x"), ParameterValue(action.parameters, "y");
      if scope != EdgeScope && x.Some? && y.Some?
      then Some(ImmediateDefinition(Always, true, InitPosition(x.value, y.value))) else None
    case "startPause" =>
      if scope == InstantScope then Some(ImmediateDefinition(IfNotPaused, false, StartPause)) else None
    case "stopPause" =>
      if scope == InstantScope then Some(ImmediateDefinition(IfPaused, false, StopPause)) else None
    case "startCharging" =>
      if scope != EdgeScope then Some(TimedDefinition(IfChargeable, 1.0, StartCharging)) else None
    case "stopCharging" =>
      if scope != EdgeScope then Some(TimedDefinition(IfCharging, 1.0, StopCharging)) else None
    case "orderExecutionTime" =>
      if scope == InstantScope then Some(ImmediateDefinition(Always, false, NoEffect)) else None
    case _ => None
  }

  /**
   Every built-in definition leads to a terminal status by the clock alone, and has all that its
   scope demands unless it is the edge-scoped noop, which lacks the mandatory ON_TERMINATE.
   */
  lemma BuiltInsAreSound(action: Action, scope: Scope)
    requires BuiltIn(action, scope).Some?
    ensures var def := BuiltIn(action, scope).value;
            && Sound(def)
            && (SoundFor(def, scope) <==> !(action.actionType == "noop" && scope == EdgeScope))
  {
  }

  /** A parameter has the value of the first one with its key. */
  lemma {:induction false} FirstParameter(parameters: seq<(string, real)>, key: string, i: nat)
    requires i < |parameters| && parameters[i].0 == key && forall j :: 0 <= j < i ==> parameters[j].0 != key
    ensures ParameterValue(parameters, key) == Some(parameters[i].1)
  {
    if i > 0 {
      FirstParameter(parameters[1..], key, i - 1);
    }
  }

  /** A parameter, or its default. */
  function ParameterOr(action: Action, key: string, default: real): real {
    var v := ParameterValue(action.parameters, key);
    if v.Some? then v.value else default
  }

  /** How long the built-in actions take. */
  lemma BuiltInEstimates(action: Action, scope: Scope)
    requires BuiltIn(action, scope).Some? && Sound(BuiltIn(action, scope).value)
    ensures var def := BuiltIn(action, scope).value;
            EstimateFrom(def, action, def.onInit) ==
            match action.actionType
            case "pick" => 1.0 + ParameterOr(action, "duration", 5.0)
            case "drop" => 1.0 + ParameterOr(action, "duration", 5.0)
            case "noop" => ParameterOr(action, "duration", 5.0)
            case "startCharging" => ParameterOr(action, "duration", 1.0)
            case "stopCharging" => ParameterOr(action, "duration", 1.0)
            case _ => 0.0
  {
    var def := BuiltIn(action, scope).value;
    if def.running.Some? {
      EstimateUnfolds(def, action, Running);
    }
    if def.initializing.Some? {
      EstimateUnfolds(def, action, Initializing);
    }
    EndTakesNoTime(def, action);
  }

  /** Where the built-in actions are supported, and which of them can be cancelled. */
  lemma BuiltInsSupported(action: Action, scope: Scope)
    ensures BuiltIn(action, scope).Some? <==>
            match action.actionType
            case "noop" => true
            case "pick" => scope == NodeScope
            case "drop" => scope == NodeScope
            case "initPosition" =>
              scope != EdgeScope && HasParameter(action.parameters, "x") && HasParameter(action.parameters, "y")
            case "startPause" => scope == InstantScope
            case "stopPause" => scope == InstantScope
            case "startCharging" => scope != EdgeScope
            case "stopCharging" => scope != EdgeScope
            case "orderExecutionTime" => scope == InstantScope
            case _ => false
    ensures var def := BuiltIn(action, scope);
            def.Some? ==> (def.value.cancelable <==> action.actionType !in {"startPause", "stopPause", "orderExecutionTime"})
  {
    GivenParameter(action.parameters, "x");
    GivenParameter(action.parameters, "y");
  }

  predicate HasParameter(parameters: seq<(string, real)>, key: string) {
    exists i :: 0 <= i < |parameters| && parameters[i].0 == key
  }

  lemma {:induction false} GivenParameter(parameters: seq<(string, real)>, key: string)
    ensures ParameterValue(parameters, key).Some? <==> HasParameter(parameters, key)
  {
    if parameters != [] && parameters[0].0 != key {
      GivenParameter(parameters[1..], key);
      assert forall i :: 0 < i < |parameters| ==> parameters[i] == parameters[1..][i - 1];
      if i :| 0 <= i < |parameters[1..]| && parameters[1..][i].0 == key {
        assert parameters[i + 1].0 == key;
      }
    }
  }

  lemma EndTakesNoTime(def: Definition, action: Action)
    requires Sound(def)
    ensures EstimateFrom(def, action, Finished) == 0.0
  {
  }
}
