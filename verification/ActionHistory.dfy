/**
 The reported status history of an action under every interleaving of ticks and requests. `LegalHistory`
 is defined on the reports alone; the theorems say that the machine produces exactly these histories.
 */
module ActionHistory {
  import opened Wrappers
  import opened Actions
  import opened ActionStateMachine

  type History = seq<Option<Status>>

  function Last(h: History): Option<Status> {
    if h == [] then None else h[|h| - 1]
  }

  /** The status to which PAUSED returns: the one reported before it, or ON_INIT's. */
  function Interrupted(setup: Setup, h: History): Option<Status> {
    if |h| >= 2 then h[|h| - 2] else Some(setup.def.onInit)
  }

  predicate CancelTo(setup: Setup, s: Status) {
    setup.def.cancelable && setup.scope != InstantScope && s == Failed
  }

  predicate TerminateTo(setup: Setup, s: Status) {
    setup.scope == EdgeScope && setup.def.onTerminate == Some(s)
  }

  /** The edges of the definition's graph, extended with PAUSED, that may follow history `h`. */
  predicate LegalNext(setup: Setup, h: History, report: Option<Status>) {
    report.Some? &&
    var s := report.value;
    match Last(h)
    case None => s == Paused || s == setup.def.onInit
    case Some(Paused) => report == Interrupted(setup, h) || CancelTo(setup, s) || TerminateTo(setup, s)
    case Some(c) =>
      && !Terminal(c)
      && (|| s == Paused
          || (DefOf(setup.def, c).Some? && s == DefOf(setup.def, c).value.next)
          || CancelTo(setup, s)
          || TerminateTo(setup, s))
  }

  predicate LegalHistory(setup: Setup, h: History) {
    forall i :: 0 <= i < |h| ==> LegalNext(setup, h[..i], h[i])
  }

  predicate EndsTerminal(h: History) {
    h != [] && h[|h| - 1].Some? && Terminal(h[|h| - 1].value)
  }

  /** What the machine's fields know about the history. */
  ghost predicate Mirrors(setup: Setup, m: MachineState, h: History) {
    && m.status == Last(h)
    && (h != [] ==> m.status.Some?)
    && (Done(m) <==> EndsTerminal(h))
    && (m.status == Some(Paused) ==> m.statusOnPause == Interrupted(setup, h))
    && (m.status.Some? && m.status.value in {Initializing, Running} ==> DefOf(setup.def, m.status.value).Some?)
    && (m.status == Some(Paused) ==>
          && m.statusOnPause.Some? && m.statusOnPause != Some(Paused)
          && (Terminal(m.statusOnPause.value) || DefOf(setup.def, m.statusOnPause.value).Some?)
          && (Terminal(m.statusOnPause.value) ==> |h| == 1))
    && (m.cancel == Ended <==> m.terminate == Ended)
    && (m.cancel == Asked ==> setup.def.cancelable && setup.scope != InstantScope)
    && (m.terminate == Asked ==> setup.scope == EdgeScope)
  }

  lemma LegalExtends(setup: Setup, h: History, report: Option<Status>)
    requires LegalHistory(setup, h) && LegalNext(setup, h, report)
    ensures LegalHistory(setup, h + [report])
  {
    forall i | 0 <= i < |h| + 1 ensures LegalNext(setup, (h + [report])[..i], (h + [report])[i]) {
      assert (h + [report])[..i] == h[..i];
      if i == |h| { assert h[..i] == h; }
    }
  }

  lemma StepMirrors(setup: Setup, m: MachineState, h: History, e: Event)
    requires Sound(setup.def) && Mirrors(setup, m, h)
    ensures var (m', out) := Step(setup, m, e);
            match out
            case Reports(s) => LegalNext(setup, h, s) && Mirrors(setup, m', h + [s])
            case _ => Mirrors(setup, m', h)
  {
  }

  /** Under every interleaving of events the reports form a path, and the machine's fields agree with it. */
  lemma {:induction false} HistoryIsPath(setup: Setup, paused: bool, events: seq<Event>)
    requires Sound(setup.def)
    ensures var t := Run(setup, paused, events);
            LegalHistory(setup, t.reports) && Mirrors(setup, t.state, t.reports)
  {
    if events != [] {
      var before := events[..|events| - 1];
      var e := events[|events| - 1];
      HistoryIsPath(setup, paused, before);
      var t := Run(setup, paused, before);
      StepMirrors(setup, t.state, t.reports, e);
      var (m, out) := Step(setup, t.state, e);
      if out.Reports? {
        LegalExtends(setup, t.reports, out.status);
      } else {
        assert t.reports + [] == t.reports;
      }
    }
  }

  lemma NothingFollowsTerminal(setup: Setup, h: History, report: Option<Status>)
    requires EndsTerminal(h)
    ensures !LegalNext(setup, h, report)
  {
  }

  lemma TerminalIsLast(setup: Setup, h: History, i: nat)
    requires LegalHistory(setup, h)
    requires i < |h| && h[i].Some? && Terminal(h[i].value)
    ensures i == |h| - 1
  {
    if i < |h| - 1 {
      NothingFollowsTerminal(setup, h[..i + 1], h[i + 1]);
    }
  }

  /** At most one terminal status is ever reported; it is the last report, and only then is the machine done. */
  lemma {:induction false} OneTerminalReport(setup: Setup, paused: bool, events: seq<Event>)
    requires Sound(setup.def)
    ensures var t := Run(setup, paused, events);
            && (forall i :: 0 <= i < |t.reports| && t.reports[i].Some? && Terminal(t.reports[i].value)
                   ==> i == |t.reports| - 1)
            && (Done(t.state) <==> EndsTerminal(t.reports))
  {
    HistoryIsPath(setup, paused, events);
    var h := Run(setup, paused, events).reports;
    forall i | 0 <= i < |h| && h[i].Some? && Terminal(h[i].value) ensures i == |h| - 1 {
      TerminalIsLast(setup, h, i);
    }
  }

  /** The tick that ends a pause reports the interrupted status, or ON_INIT's if none was reported before. */
  lemma ResumeReturns(setup: Setup, paused: bool, events: seq<Event>, interval: real)
    requires Sound(setup.def)
    requires var m := Run(setup, paused, events).state; m.status == Some(Paused) && !m.pause
    ensures var t := Run(setup, paused, events);
            var after := Run(setup, paused, events + [Tick(interval)]);
            && after.reports == t.reports + [Interrupted(setup, t.reports)]
            && after.state.status == Interrupted(setup, t.reports)
            && after.state.status != Some(Paused)
  {
    HistoryIsPath(setup, paused, events);
    RunExtends(setup, paused, events, Tick(interval));
  }

  /* Conversely, every path of the graph is the history of some run. */

  /** A machine ready to be driven along any edge: no request is pending. */
  ghost predicate Ready(setup: Setup, m: MachineState, h: History) {
    Mirrors(setup, m, h) && Unasked(m) && SpentSomeTime(m)
  }

  /** The events that make a ready machine report `s` next. */
  function Drive(setup: Setup, m: MachineState, s: Status): seq<Event>
    requires Sound(setup.def)
  {
    if s == Paused then [Pause, Tick(0.0)]
    else if m.status.None? then [Tick(0.0)]
    else if m.status == Some(Paused) && m.statusOnPause == Some(s) then [Unpause, Tick(0.0)]
    else if m.status != Some(Paused) && DefOf(setup.def, m.status.value).Some?
            && DefOf(setup.def, m.status.value).value.next == s then
      var d := DurationOf(setup.def, setup.action, m.status.value);
      [Tick(if d > 0.0 then d else 0.0)]
    else if CancelTo(setup, s) then [Cancel, Tick(0.0)]
    else [Terminate, Tick(0.0)]
  }

  /** The state after at most two steps that report nothing before the last one. */
  function After(setup: Setup, m: MachineState, d: seq<Event>): (MachineState, Outcome)
    requires 1 <= |d| <= 2
  {
    if |d| == 1 then Step(setup, m, d[0]) else Step(setup, Step(setup, m, d[0]).0, d[1])
  }

  predicate Drives(setup: Setup, m: MachineState, s: Status, d: seq<Event>) {
    && 1 <= |d| <= 2
    && (|d| == 2 ==> Step(setup, m, d[0]).1 == Quiet)
    && After(setup, m, d).1 == Reports(Some(s))
  }

  lemma DriveSteps(setup: Setup, m: MachineState, h: History, s: Status)
    requires Sound(setup.def) && Ready(setup, m, h) && LegalNext(setup, h, Some(s))
    ensures Drives(setup, m, s, Drive(setup, m, s))
  {
  }

  /** No request is pending. */
  predicate Unasked(m: MachineState) {
    !Done(m) ==> m.cancel == NotAsked && m.terminate == NotAsked && (m.pause <==> m.status == Some(Paused))
  }

  predicate SpentSomeTime(m: MachineState) {
    Spent(m, Initializing) >= 0.0 && Spent(m, Running) >= 0.0
  }

  lemma DriveKeepsUnasked(setup: Setup, m: MachineState, h: History, s: Status)
    requires Sound(setup.def) && Ready(setup, m, h) && LegalNext(setup, h, Some(s))
    ensures var d := Drive(setup, m, s); 1 <= |d| <= 2 && Unasked(After(setup, m, d).0)
  {
    hide SpentSomeTime;
  }

  lemma StepKeepsSpent(setup: Setup, m: MachineState, e: Event)
    requires SpentSomeTime(m) && (e.Tick? ==> e.interval >= 0.0)
    ensures SpentSomeTime(Step(setup, m, e).0)
  {
  }

  lemma DriveTicksForward(setup: Setup, m: MachineState, s: Status)
    requires Sound(setup.def)
    ensures var d := Drive(setup, m, s); forall i :: 0 <= i < |d| && d[i].Tick? ==> d[i].interval >= 0.0
  {
  }

  lemma DriveMoves(setup: Setup, m: MachineState, h: History, s: Status)
    requires Sound(setup.def) && Ready(setup, m, h) && LegalNext(setup, h, Some(s))
    ensures var d := Drive(setup, m, s);
            Drives(setup, m, s, d) && Ready(setup, After(setup, m, d).0, h + [Some(s)])
  {
    hide Drive, Mirrors, Step, Unasked, SpentSomeTime, LegalNext, Sound;
    var d := Drive(setup, m, s);
    DriveSteps(setup, m, h, s);
    DriveKeepsUnasked(setup, m, h, s);
    DriveTicksForward(setup, m, s);
    StepMirrors(setup, m, h, d[0]);
    StepKeepsSpent(setup, m, d[0]);
    if |d| == 2 {
      StepKeepsSpent(setup, Step(setup, m, d[0]).0, d[1]);
      StepMirrors(setup, Step(setup, m, d[0]).0, h, d[1]);
    }
  }

  lemma DriveSize(setup: Setup, m: MachineState, s: Status)
    requires Sound(setup.def)
    ensures 1 <= |Drive(setup, m, s)| <= 2
  {
  }

  lemma DriveReports(setup: Setup, paused: bool, events: seq<Event>, s: Status)
    requires Sound(setup.def)
    requires var t := Run(setup, paused, events);
             Ready(setup, t.state, t.reports) && LegalNext(setup, t.reports, Some(s))
    ensures var t := Run(setup, paused, events);
            var t' := Run(setup, paused, events + Drive(setup, t.state, s));
            t'.reports == t.reports + [Some(s)] && Ready(setup, t'.state, t'.reports)
  {
    hide Ready, Sound, LegalNext, Drive;
    var t := Run(setup, paused, events);
    var d := Drive(setup, t.state, s);
    DriveSize(setup, t.state, s);
    DriveMoves(setup, t.state, t.reports, s);
    RunExtends(setup, paused, events, d[0]);
    if |d| == 2 {
      RunExtends(setup, paused, events + [d[0]], d[1]);
      assert events + d == events + [d[0]] + [d[1]];
    } else {
      assert events + d == events + [d[0]];
    }
  }

  lemma NewIsReady(setup: Setup)
    requires Sound(setup.def)
    ensures var t := Run(setup, false, []); t.reports == [] && Ready(setup, t.state, t.reports)
  {
  }

  lemma LegalPrefix(setup: Setup, h: History)
    requires LegalHistory(setup, h) && h != []
    ensures var shorter, last := h[..|h| - 1], h[|h| - 1];
            LegalHistory(setup, shorter) && LegalNext(setup, shorter, last) && last.Some? && shorter + [last] == h
  {
    hide LegalNext;
    var shorter := h[..|h| - 1];
    forall i | 0 <= i < |shorter| ensures LegalNext(setup, shorter[..i], shorter[i]) {
      assert shorter[..i] == h[..i];
    }
    LegalReport(setup, shorter, h[|h| - 1]);
  }

  lemma LegalReport(setup: Setup, h: History, report: Option<Status>)
    requires LegalNext(setup, h, report)
    ensures report.Some?
  {
  }

  /** Every legal history is the history of some run that starts unpaused. */
  lemma {:induction false} EveryPathHappens(setup: Setup, h: History) returns (events: seq<Event>)
    requires Sound(setup.def) && LegalHistory(setup, h)
    ensures var t := Run(setup, false, events); t.reports == h && Ready(setup, t.state, t.reports)
    decreases |h|
  {
    hide Ready, Drive, Sound, Run, LegalHistory, LegalNext;
    if h == [] {
      events := [];
      NewIsReady(setup);
    } else {
      LegalPrefix(setup, h);
      events := EveryPathHappens(setup, h[..|h| - 1]);
      var s := h[|h| - 1].value;
      DriveReports(setup, false, events, s);
      events := events + Drive(setup, Run(setup, false, events).state, s);
    }
  }

  /** The reported histories are exactly the paths of the graph extended with PAUSED. */
  lemma HistoriesAreExactlyPaths(setup: Setup, h: History)
    requires Sound(setup.def)
    ensures LegalHistory(setup, h) <==> exists paused, events :: Run(setup, paused, events).reports == h
  {
    if LegalHistory(setup, h) {
      var events := EveryPathHappens(setup, h);
      assert Run(setup, false, events).reports == h;
    } else if paused, events :| Run(setup, paused, events).reports == h {
      HistoryIsPath(setup, paused, events);
    }
  }

  /* Exceptions */

  /**
   A tick of a sound machine throws exactly when a termination is pending, nothing that takes
   precedence is, and the definition has no ON_TERMINATE.
   */
  lemma ThrowsExactlyWithoutOnTerminate(setup: Setup, paused: bool, events: seq<Event>, interval: real)
    requires Sound(setup.def)
    ensures var m := Run(setup, paused, events).state;
            OnTick(setup, m, interval).1 == Throws <==>
            && setup.def.onTerminate.None? && m.terminate == Asked && m.cancel != Asked
            && m.status.Some? && (m.pause <==> m.status == Some(Paused))
  {
    HistoryIsPath(setup, paused, events);
  }

  /** Terminating an action right after its first report, when its definition has no ON_TERMINATE. */
  lemma TerminationThrows(setup: Setup)
    requires Sound(setup.def) && setup.def.onTerminate.None? && !Terminal(setup.def.onInit) && setup.scope == EdgeScope
    ensures OnTick(setup, Run(setup, false, [Tick(0.0), Terminate]).state, 0.0).1 == Throws
  {
    RunExtends(setup, false, [], Tick(0.0));
    RunExtends(setup, false, [Tick(0.0)], Terminate);
    assert [] + [Tick(0.0)] == [Tick(0.0)];
    assert [Tick(0.0)] + [Terminate] == [Tick(0.0), Terminate];
  }

  /** The same while it is paused from the start, whatever its ON_INIT. */
  lemma PausedTerminationThrows(setup: Setup)
    requires setup.def.onTerminate.None? && setup.scope == EdgeScope
    ensures OnTick(setup, Run(setup, true, [Tick(0.0), Terminate]).state, 0.0).1 == Throws
  {
    RunExtends(setup, true, [], Tick(0.0));
    RunExtends(setup, true, [Tick(0.0)], Terminate);
    assert [] + [Tick(0.0)] == [Tick(0.0)];
    assert [Tick(0.0)] + [Terminate] == [Tick(0.0), Terminate];
  }

  /** Some run ends in a tick that throws exactly if the definition lacks what its scope demands. */
  lemma SomeRunThrows(setup: Setup)
    requires Sound(setup.def)
    ensures !SoundFor(setup.def, setup.scope) <==>
            exists paused, events, interval :: OnTick(setup, Run(setup, paused, events).state, interval).1 == Throws
  {
    if !SoundFor(setup.def, setup.scope) {
      PausedTerminationThrows(setup);
    } else if paused, events, interval :| OnTick(setup, Run(setup, paused, events).state, interval).1 == Throws {
      HistoryIsPath(setup, paused, events);
    }
  }

  /** The built-in noop on an edge is such a definition: terminating it makes the next tick throw. */
  lemma EdgeNoopThrows(action: Action)
    requires action.actionType == "noop"
    ensures var setup := Setup(action, EdgeScope, BuiltIn(action, EdgeScope).value);
            OnTick(setup, Run(setup, false, [Tick(0.0), Terminate]).state, 0.0).1 == Throws
  {
    BuiltInsAreSound(action, EdgeScope);
    TerminationThrows(Setup(action, EdgeScope, BuiltIn(action, EdgeScope).value));
  }

  /* Definitions that name PAUSED */

  /** The clock leads from ON_INIT into the given status. */
  predicate ClockEnters(def: Definition, s: Status) {
    || s == def.onInit
    || (def.onInit == Initializing && def.initializing.Some? && s == def.initializing.value.next)
    || (def.running.Some? && s == def.running.value.next && ClockRuns(def))
  }

  predicate ClockRuns(def: Definition) {
    def.onInit == Running
    || (def.onInit == Initializing && def.initializing.Some? && def.initializing.value.next == Running)
  }

  /** The status that a machine is in, or has interrupted. */
  function Going(m: MachineState): Option<Status> {
    if m.status == Some(Paused) then m.statusOnPause else m.status
  }

  /** The machine is new, or in a status that has ended it or that the clock may have entered. */
  predicate HasStatusToResume(def: Definition, m: MachineState) {
    if m.status == None then true
    else Going(m) in {Some(Finished), Some(Failed)} || (Going(m).Some? && ClockEnters(def, Going(m).value))
  }

  lemma StepResumes(setup: Setup, m: MachineState, e: Event)
    requires TypeCorrect(setup.def) && !ClockEnters(setup.def, Paused) && HasStatusToResume(setup.def, m)
    ensures HasStatusToResume(setup.def, ActionStateMachine.Step(setup, m, e).0)
    ensures ActionStateMachine.Step(setup, m, e).1 != Reports(None)
  {
  }

  lemma {:induction false} AlwaysReportsStatus(setup: Setup, paused: bool, events: seq<Event>)
    requires TypeCorrect(setup.def) && !ClockEnters(setup.def, Paused)
    ensures var t := Run(setup, paused, events); HasStatusToResume(setup.def, t.state) && None !in t.reports
  {
    hide ClockEnters, TypeCorrect, ActionStateMachine.Step;
    if events != [] {
      var front := events[..|events| - 1];
      AlwaysReportsStatus(setup, paused, front);
      StepResumes(setup, Run(setup, paused, front).state, events[|events| - 1]);
    }
  }

  /** In the given status by the clock alone. */
  predicate Untouched(m: MachineState, s: Status) {
    m == Fresh(false).(status := Some(s), spent := m.spent)
  }

  lemma ClockInitializes(setup: Setup)
    requires !Terminal(setup.def.onInit)
    ensures Untouched(Run(setup, false, [Tick(0.0)]).state, setup.def.onInit)
  {
    RunExtends(setup, false, [], Tick(0.0));
    assert [] + [Tick(0.0)] == [Tick(0.0)];
  }

  lemma ClockLeaves(setup: Setup, events: seq<Event>, s: Status) returns (longer: seq<Event>)
    requires TypeCorrect(setup.def) && Untouched(Run(setup, false, events).state, s) && DefOf(setup.def, s).Some?
    requires !Terminal(DefOf(setup.def, s).value.next)
    ensures Untouched(Run(setup, false, longer).state, DefOf(setup.def, s).value.next)
  {
    var m := Run(setup, false, events).state;
    var rest := TransitionDuration(DefOf(setup.def, s).value, setup.action).value - Spent(m, s);
    var e := Tick(if rest > 0.0 then rest else 0.0);
    RunExtends(setup, false, events, e);
    longer := events + [e];
  }

  lemma ClockPauses(setup: Setup) returns (events: seq<Event>)
    requires TypeCorrect(setup.def) && Closed(setup.def) && ClockEnters(setup.def, Paused)
    ensures Untouched(Run(setup, false, events).state, Paused)
  {
    ClockInitializes(setup);
    events := [Tick(0.0)];
    if setup.def.onInit == Initializing {
      events := ClockLeaves(setup, events, Initializing);
    }
    if setup.def.onInit == Running || setup.def.initializing.value.next == Running {
      events := ClockLeaves(setup, events, Running);
    }
  }

  /**
   Some run reports no status at all exactly if the clock may enter PAUSED: such a status has none to resume to.
   The declared types allow it.
   */
  lemma LosesStatusExactly(setup: Setup)
    requires TypeCorrect(setup.def) && Closed(setup.def)
    ensures (exists paused, events :: None in Run(setup, paused, events).reports) <==> ClockEnters(setup.def, Paused)
  {
    if ClockEnters(setup.def, Paused) {
      var events := ClockPauses(setup);
      RunExtends(setup, false, events, Tick(0.0));
      assert None in Run(setup, false, events + [Tick(0.0)]).reports;
    } else if paused, events :| None in Run(setup, paused, events).reports {
      AlwaysReportsStatus(setup, paused, events);
    }
  }

  const PAUSING := Definition(Always, Running, true, None, None, Some(StatusDef(Some(Seconds(1.0)), Paused)), map[])

  lemma NothingRun(setup: Setup)
    ensures Run(setup, false, []) == Trace(Fresh(false), [])
  {
  }

  /** A definition that pauses after a second. */
  lemma PausingLosesStatus(action: Action, scope: Scope)
    ensures TypeCorrect(PAUSING) && Closed(PAUSING)
    ensures Run(Setup(action, scope, PAUSING), false, [Tick(0.0), Tick(1.0), Tick(0.0)]).reports ==
            [Some(Running), Some(Paused), None]
  {
    hide Run;
    var setup := Setup(action, scope, PAUSING);
    assert Run(setup, false, []) == Trace(Fresh(false), []) by {
      NothingRun(setup);
    }
    RunExtends(setup, false, [], Tick(0.0));
    RunExtends(setup, false, [Tick(0.0)], Tick(1.0));
    RunExtends(setup, false, [Tick(0.0), Tick(1.0)], Tick(0.0));
    assert [] + [Tick(0.0)] == [Tick(0.0)] && [Tick(0.0)] + [Tick(1.0)] == [Tick(0.0), Tick(1.0)];
    assert [Tick(0.0), Tick(1.0)] + [Tick(0.0)] == [Tick(0.0), Tick(1.0), Tick(0.0)];
  }
}
