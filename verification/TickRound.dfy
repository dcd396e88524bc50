/**
 One tick of the virtual AGV. The loop over the machines runs on a list from which ending machines are
 spliced and to which the controller, called back on every report, may append.
 */
module TickRound {
  import opened ActionStateMachine
  import opened VirtualAgv

  /** What the controller commands from within its callbacks: on the k-th report of a tick, and on arrival. */
  datatype Reactions = Reactions(onReport: seq<seq<Command>>, onTraversed: seq<Command>)

  /** A (partial) tick: the state after it, whether an exception ended it, its moves, and whom it ticked. */
  datatype Round = Round(agv: Agv, thrown: bool, moves: seq<Move>, ticked: seq<nat>)

  function ObeyAll(a: Agv, commands: seq<Command>): Agv
    decreases |commands|
  {
    if commands == [] then a else ObeyAll(Obey(a, commands[0]), commands[1..])
  }

  function MovesOf(commands: seq<Command>): seq<Move> {
    if commands == [] then [] else [Commanded(commands[0])] + MovesOf(commands[1..])
  }

  lemma TickMachineLength(a: Agv, i: nat, dt: Interval)
    ensures |a.machines| - 1 <= |TickMachine(a, i, dt).0.machines| <= |a.machines|
  {
  }

  /** The for-of loop from index `i` on: the index advances by one even if the machine there was spliced out. */
  function TickLoop(a: Agv, i: nat, dt: Interval, onReport: seq<seq<Command>>): Round
    decreases |onReport|, if i <= |a.machines| then |a.machines| - i else 0
  {
    if i >= |a.machines| then Round(a, false, [], [])
    else
      var serial := a.machines[i].serial;
      var (a1, out) := TickMachine(a, i, dt);
      if out == Throws then
        Round(a1, true, [Ticked(i, dt)], [serial])
      else if out.Reports? && onReport != [] then
        var r := TickLoop(ObeyAll(a1, onReport[0]), i + 1, dt, onReport[1..]);
        r.(moves := [Ticked(i, dt)] + MovesOf(onReport[0]) + r.moves, ticked := [serial] + r.ticked)
      else
        TickMachineLength(a, i, dt);
        var r := TickLoop(a1, i + 1, dt, onReport);
        r.(moves := [Ticked(i, dt)] + r.moves, ticked := [serial] + r.ticked)
  }

  /** A whole tick. An exception in the loop skips motion and charging. */
  function WholeTick(o: Options, a: Agv, tick: nat, tickInterval: Positive, dt: Interval, env: Reactions): Round {
    var loop := TickLoop(a, 0, dt, env.onReport);
    if loop.thrown then loop
    else
      var driven := AdvanceTraverse(o, loop.agv, dt);
      var reaction := if loop.agv.route.Some? && driven.route.None? then env.onTraversed else [];
      var reacted := ObeyAll(driven, reaction);
      loop.(agv := AdvanceCharge(o, reacted, tick, tickInterval, dt),
            moves := loop.moves + [Driven(dt)] + MovesOf(reaction) + [Charged(tick, tickInterval, dt)])
  }

  lemma {:induction false} CommandsAreMoves(o: Options, a: Agv, commands: seq<Command>)
    ensures Play(o, a, MovesOf(commands)) == ObeyAll(a, commands)
    decreases |commands|
  {
    if commands != [] {
      assert MovesOf(commands)[1..] == MovesOf(commands[1..]);
      CommandsAreMoves(o, Obey(a, commands[0]), commands[1..]);
    }
  }

  lemma PlayOne(o: Options, a: Agv, m: Move, rest: seq<Move>)
    ensures Play(o, a, [m] + rest) == Play(o, Make(o, a, m), rest)
  {
    assert ([m] + rest)[1..] == rest;
  }

  /** A move, the reaction to it, and what follows. */
  lemma ReactionRun(o: Options, a: Agv, m: Move, commands: seq<Command>, rest: seq<Move>)
    ensures Play(o, a, [m] + MovesOf(commands) + rest) == Play(o, ObeyAll(Make(o, a, m), commands), rest)
  {
    var a1 := Make(o, a, m);
    CommandsAreMoves(o, a1, commands);
    PlayConcat(o, a1, MovesOf(commands), rest);
    PlayOne(o, a, m, MovesOf(commands) + rest);
    assert [m] + MovesOf(commands) + rest == [m] + (MovesOf(commands) + rest);
  }

  lemma {:induction false} LoopIsRun(o: Options, a: Agv, i: nat, dt: Interval, onReport: seq<seq<Command>>)
    ensures Play(o, a, TickLoop(a, i, dt, onReport).moves) == TickLoop(a, i, dt, onReport).agv
    decreases |onReport|, if i <= |a.machines| then |a.machines| - i else 0
  {
    hide TickMachine, ObeyAll, MovesOf;
    if i < |a.machines| {
      var (a1, out) := TickMachine(a, i, dt);
      var m := Ticked(i, dt);
      assert Make(o, a, m) == a1;
      if out == Throws {
        PlayOne(o, a, m, []);
        assert [m] + [] == [m];
      } else if out.Reports? && onReport != [] {
        var a2 := ObeyAll(a1, onReport[0]);
        LoopIsRun(o, a2, i + 1, dt, onReport[1..]);
        ReactionRun(o, a, m, onReport[0], TickLoop(a2, i + 1, dt, onReport[1..]).moves);
      } else {
        TickMachineLength(a, i, dt);
        LoopIsRun(o, a1, i + 1, dt, onReport);
        PlayOne(o, a, m, TickLoop(a1, i + 1, dt, onReport).moves);
      }
    }
  }

  /** Motion and charging, with the reaction to an arrival between them. */
  lemma AdvanceIsRun(o: Options, a: Agv, dt: Interval, reaction: seq<Command>, charge: Move)
    ensures Play(o, a, [Driven(dt)] + MovesOf(reaction) + [charge]) ==
            Make(o, ObeyAll(AdvanceTraverse(o, a, dt), reaction), charge)
  {
    ReactionRun(o, a, Driven(dt), reaction, [charge]);
    PlayOne(o, ObeyAll(AdvanceTraverse(o, a, dt), reaction), charge, []);
    assert [charge] + [] == [charge];
  }

  /** Every tick, whatever the controller does in its callbacks, is a run of moves: what runs keep, ticks keep. */
  lemma TickIsRun(o: Options, a: Agv, tick: nat, tickInterval: Positive, dt: Interval, env: Reactions)
    ensures var r := WholeTick(o, a, tick, tickInterval, dt, env); Play(o, a, r.moves) == r.agv
  {
    hide TickLoop, AdvanceTraverse, AdvanceCharge, MovesOf, ObeyAll, Play;
    LoopIsRun(o, a, 0, dt, env.onReport);
    var loop := TickLoop(a, 0, dt, env.onReport);
    if !loop.thrown {
      var driven := AdvanceTraverse(o, loop.agv, dt);
      var reaction := if loop.agv.route.Some? && driven.route.None? then env.onTraversed else [];
      var charge := Charged(tick, tickInterval, dt);
      AdvanceIsRun(o, loop.agv, dt, reaction, charge);
      var tail := [Driven(dt)] + MovesOf(reaction) + [charge];
      PlayConcat(o, a, loop.moves, tail);
      assert loop.moves + [Driven(dt)] + MovesOf(reaction) + [charge] == loop.moves + tail;
    }
  }

  /* What a tick consists of */

  predicate Reported(a: Agv, m: Move) {
    m.Ticked? && TickMachine(a, m.index, m.dt).1.Reports?
  }

  /**
   All moves are ticks of machines of the given length, each report directly followed by the reaction to it, as
   long as there are any.
   */
  predicate Answers(o: Options, a: Agv, moves: seq<Move>, dt: Interval, onReport: seq<seq<Command>>)
    decreases |moves|
  {
    moves != [] ==>
      && moves[0].Ticked? && moves[0].dt == dt
      && var rest := moves[1..];
         if Reported(a, moves[0]) && onReport != [] then
           var n := |MovesOf(onReport[0])|;
           && n <= |rest| && rest[..n] == MovesOf(onReport[0])
           && Answers(o, ObeyAll(Make(o, a, moves[0]), onReport[0]), rest[n..], dt, onReport[1..])
         else Answers(o, Make(o, a, moves[0]), rest, dt, onReport)
  }

  lemma AnsweredFirst(o: Options, a: Agv, m: Move, rest: seq<Move>, onReport: seq<seq<Command>>)
    requires Reported(a, m) && onReport != []
    requires Answers(o, ObeyAll(Make(o, a, m), onReport[0]), rest, m.dt, onReport[1..])
    ensures Answers(o, a, [m] + MovesOf(onReport[0]) + rest, m.dt, onReport)
  {
    hide Reported, ObeyAll, MovesOf, Make;
    var moves := [m] + MovesOf(onReport[0]) + rest;
    assert moves[1..] == MovesOf(onReport[0]) + rest;
    assert moves[1..][|MovesOf(onReport[0])|..] == rest;
    TickedAnswers(o, a, m);
  }

  lemma TickedAnswers(o: Options, a: Agv, m: Move)
    requires Reported(a, m)
    ensures m.Ticked?
  {
  }

  lemma UnansweredFirst(o: Options, a: Agv, m: Move, rest: seq<Move>, onReport: seq<seq<Command>>)
    requires m.Ticked? && !(Reported(a, m) && onReport != []) && Answers(o, Make(o, a, m), rest, m.dt, onReport)
    ensures Answers(o, a, [m] + rest, m.dt, onReport)
  {
    hide Reported, ObeyAll, MovesOf, Make;
    assert ([m] + rest)[1..] == rest;
  }

  lemma {:induction false} LoopAnswers(o: Options, a: Agv, i: nat, dt: Interval, onReport: seq<seq<Command>>)
    ensures Answers(o, a, TickLoop(a, i, dt, onReport).moves, dt, onReport)
    decreases |onReport|, if i <= |a.machines| then |a.machines| - i else 0
  {
    hide TickMachine, ObeyAll, MovesOf, Answers;
    if i >= |a.machines| {
      NothingToAnswer(o, a, dt, onReport);
    } else {
      var (a1, out) := TickMachine(a, i, dt);
      var m := Ticked(i, dt);
      assert Make(o, a, m) == a1;
      if out == Throws {
        assert [m] + [] == [m];
        NothingToAnswer(o, a1, dt, onReport);
        UnansweredFirst(o, a, m, [], onReport);
      } else if out.Reports? && onReport != [] {
        LoopAnswers(o, ObeyAll(a1, onReport[0]), i + 1, dt, onReport[1..]);
        AnsweredFirst(o, a, m, TickLoop(ObeyAll(a1, onReport[0]), i + 1, dt, onReport[1..]).moves, onReport);
      } else {
        TickMachineLength(a, i, dt);
        LoopAnswers(o, a1, i + 1, dt, onReport);
        UnansweredFirst(o, a, m, TickLoop(a1, i + 1, dt, onReport).moves, onReport);
      }
    }
  }

  lemma NothingToAnswer(o: Options, a: Agv, dt: Interval, onReport: seq<seq<Command>>)
    ensures Answers(o, a, [], dt, onReport)
  {
  }

  /**
   A tick that completes: first the machines, then motion, then, if that arrives at the end of the edge, the
   reaction to it, and then charging.
   */
  lemma TickInOrder(o: Options, a: Agv, tick: nat, tickInterval: Positive, dt: Interval, env: Reactions)
    requires !WholeTick(o, a, tick, tickInterval, dt, env).thrown
    ensures exists loop ::
              && Answers(o, a, loop, dt, env.onReport)
              && var before, after := Play(o, a, loop), Play(o, a, loop + [Driven(dt)]);
                 var reaction := if before.route.Some? && after.route.None? then env.onTraversed else [];
                 WholeTick(o, a, tick, tickInterval, dt, env).moves ==
                 loop + [Driven(dt)] + MovesOf(reaction) + [Charged(tick, tickInterval, dt)]
  {
    hide TickLoop, AdvanceTraverse, AdvanceCharge, MovesOf, ObeyAll, Answers;
    var loop := TickLoop(a, 0, dt, env.onReport);
    LoopAnswers(o, a, 0, dt, env.onReport);
    LoopIsRun(o, a, 0, dt, env.onReport);
    PlayConcat(o, a, loop.moves, [Driven(dt)]);
    PlayOne(o, loop.agv, Driven(dt), []);
    assert [Driven(dt)] + [] == [Driven(dt)];
    var driven := AdvanceTraverse(o, loop.agv, dt);
    assert Play(o, a, loop.moves + [Driven(dt)]) == driven;
    assert Answers(o, a, loop.moves, dt, env.onReport);
  }
}
