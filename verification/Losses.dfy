/** Trees that are not lossless lose a bill in some world. A script says what each leaf
    execution does; every shape that can go wrong has a script that makes it go wrong. */
module Losses {
  import opened Conservation
  import opened Exceptions
  import opened JsonValue
  import opened Modes
  import opened Ranking
  import opened Usage
  import opened Wrappers

  // ---------- scripts ----------

  datatype Move = Wins(output: Value) | Fails | Breaks

  // A steady leaf told to break only fails.
  ghost function Played(steady: Names, name: string, move: Move): LeafAnswer {
    match move
    case Wins(output) => Answers(output, true, None)
    case Fails => Answers(Null, false, None)
    case Breaks => if name in steady then Answers(Null, false, None) else Raises(LeafError("broken"))
  }

  ghost predicate Plays(w: World, steady: Names, tick: nat, move: Move) {
    forall name, input :: w.leaf(name, tick, input) == Played(steady, name, move)
  }

  // From `tick` on, the leaves do what the script says, and nobody cancels.
  ghost predicate Follows(w: World, steady: Names, tick: nat, script: seq<Move>) {
    && (forall t :: !w.cancelled(t))
    && forall i :: 0 <= i < |script| ==> Plays(w, steady, tick + i, script[i])
  }

  lemma FollowsParts(w: World, steady: Names, tick: nat, a: seq<Move>, b: seq<Move>)
    requires Follows(w, steady, tick, a + b)
    ensures Follows(w, steady, tick, a) && Follows(w, steady, tick + |a|, b)
  {
    hide Plays;
    forall i | 0 <= i < |a| ensures Plays(w, steady, tick + i, a[i]) {
      assert (a + b)[i] == a[i];
    }
    forall i | 0 <= i < |b| ensures Plays(w, steady, tick + |a| + i, b[i]) {
      assert (a + b)[|a| + i] == b[i];
    }
  }

  // Every leaf reports seven tokens.
  ghost function Staged(steady: Names, script: seq<Move>): World {
    World(
      (name: string, tick: nat, input: Value) =>
        Played(steady, name, if tick < |script| then script[tick] else Fails),
      (tick: nat) => TokenUsage(Some(7), None, None, None),
      (tick: nat) => None,
      (tick: nat) => false,
      (v: Value) => None)
  }

  lemma StagedFollows(steady: Names, script: seq<Move>)
    ensures Steady(Staged(steady, script), steady) && AllReport(Staged(steady, script))
    ensures Follows(Staged(steady, script), steady, 0, script)
  {
  }

  // ---------- what a script can force ----------

  // To succeed with an output, having been paid for; to fail; to raise; to raise after a
  // leaf has returned; to fail with a returned leaf dropped.
  datatype Goal = Win(output: Value) | Lose | Raise | RaisePaid | LoseBill

  ghost predicate Meets(goal: Goal, ran: Ran) {
    match goal
    case Win(output) =>
      ran.end.Returned? && ran.end.outcome.success && ran.end.outcome.output == output && !NothingReturned(ran.log)
    case Lose => ran.end.Returned? && !ran.end.outcome.success
    case Raise => ran.end.Threw?
    case RaisePaid => ran.end.Threw? && !NothingReturned(ran.log)
    case LoseBill => ran.end.Returned? && !ran.end.outcome.success && !NothingReturned(ran.lost)
  }

  // On this input, in any world that follows the script.
  ghost predicate Forces(steady: Names, node: Node, input: Value, script: seq<Move>, goal: Goal) {
    forall w, tick: nat :: Follows(w, steady, tick, script) ==>
      Exec(w, node, input, tick).tick == tick + |script| && Meets(goal, Exec(w, node, input, tick))
  }

  lemma ReturnedIn(a: seq<Call>, b: seq<Call>)
    ensures NothingReturned(a + b) <==> NothingReturned(a) && NothingReturned(b)
  {
    assert forall c :: c in a + b <==> c in a || c in b;
  }

  lemma RaisedLog(w: World, node: Node, input: Value, tick: nat)
    ensures var ran := Exec(w, node, input, tick);
            ran.end.Threw? ==> ran.lost == ran.log
  {
    hide Exec;
    ExecAccounted(w, Balance, node, input, tick);
  }

  // ---------- sequences ----------

  // The first `i` nodes of the sequence succeed, the last of them with `v`, and `made`
  // leaf executions have been made.
  ghost predicate Arrives(w: World, node: Node, input: Value, tick: nat, i: nat, v: Value, made: nat, acc: Acc)
    requires node.Sequence? && i <= |node.nodes|
  {
    && acc.tick == tick + made
    && Exec(w, node, input, tick) == SequenceFrom(w, node, i, if i == 0 then input else v, acc)
    && (i > 0 ==> !NothingReturned(acc.log))
  }

  ghost predicate Reaches(w: World, node: Node, input: Value, tick: nat, i: nat, v: Value, made: nat)
    requires node.Sequence? && i <= |node.nodes|
  {
    exists acc :: Arrives(w, node, input, tick, i, v, made, acc)
  }

  ghost predicate ForcesUpTo(steady: Names, node: Node, input: Value, i: nat, script: seq<Move>, v: Value)
    requires node.Sequence? && i <= |node.nodes|
  {
    forall w, tick: nat :: Follows(w, steady, tick, script) ==>
      Reaches(w, node, input, tick, i, v, |script|)
  }

  lemma ForcesNone(steady: Names, node: Node, input: Value, v: Value)
    requires node.Sequence?
    ensures ForcesUpTo(steady, node, input, 0, [], v)
  {
    forall w, tick: nat | Follows(w, steady, tick, []) ensures Reaches(w, node, input, tick, 0, v, 0) {
      assert Arrives(w, node, input, tick, 0, v, 0, Start(tick));
    }
  }

  lemma PushFacts(acc: Acc, ran: Ran)
    requires ran.end.Returned?
    ensures Push(acc, ran).tick == ran.tick
    ensures NothingReturned(Push(acc, ran).log) <==> NothingReturned(acc.log) && NothingReturned(ran.log)
    ensures NothingReturned(Push(acc, ran).lost) <==> NothingReturned(acc.lost) && NothingReturned(ran.lost)
  {
    ReturnedIn(acc.log, ran.log);
    ReturnedIn(acc.lost, ran.lost);
  }

  // What the next node's run does to the sequence.
  lemma SequenceStep(w: World, node: Node, i: nat, current: Value, acc: Acc)
    requires node.Sequence? && i < |node.nodes| && !w.cancelled(acc.tick)
    ensures var ran, whole := Exec(w, node.nodes[i], current, acc.tick), SequenceFrom(w, node, i, current, acc);
            && (ran.end.Threw? ==> whole == Abort(acc, ran))
            && (ran.end.Returned? && ran.end.outcome.success ==>
                  whole == SequenceFrom(w, node, i + 1, ran.end.outcome.output, Push(acc, ran)))
            && (ran.end.Returned? && !ran.end.outcome.success ==>
                  && whole.end.Returned? && !whole.end.outcome.success
                  && whole.tick == ran.tick && whole.lost == acc.lost + ran.lost)
  {
    hide Exec;
  }

  // What the `i`-th node is given.
  function Passed(input: Value, i: nat, u: Value): Value {
    if i == 0 then input else u
  }

  lemma ForcesOneMore(
      steady: Names, node: Node, input: Value, i: nat, a: seq<Move>, u: Value, b: seq<Move>, v: Value)
    requires node.Sequence? && i < |node.nodes|
    requires ForcesUpTo(steady, node, input, i, a, u)
    requires Forces(steady, node.nodes[i], Passed(input, i, u), b, Win(v))
    ensures ForcesUpTo(steady, node, input, i + 1, a + b, v)
  {
    hide Exec, SequenceFrom, Push, Plays, NothingReturned;
    var next, made := i + 1, |a + b|;
    forall w, tick: nat | Follows(w, steady, tick, a + b)
      ensures Reaches(w, node, input, tick, next, v, made)
    {
      FollowsParts(w, steady, tick, a, b);
      assert Reaches(w, node, input, tick, i, u, |a|);
      var acc :| Arrives(w, node, input, tick, i, u, |a|, acc);
      var current := Passed(input, i, u);
      SequenceStep(w, node, i, current, acc);
      var ran := Exec(w, node.nodes[i], current, acc.tick);
      assert Meets(Win(v), ran);
      PushFacts(acc, ran);
      assert Arrives(w, node, input, tick, next, v, made, Push(acc, ran));
    }
  }

  lemma ForcesSuccess(steady: Names, node: Node, input: Value, script: seq<Move>, v: Value)
    requires node.Sequence? && node.nodes != [] && ForcesUpTo(steady, node, input, |node.nodes|, script, v)
    ensures Forces(steady, node, input, script, Win(v))
  {
    hide Exec, SequenceFrom, Follows, NothingReturned;
    forall w, tick: nat | Follows(w, steady, tick, script)
      ensures Exec(w, node, input, tick).tick == tick + |script| && Meets(Win(v), Exec(w, node, input, tick))
    {
      var n := |node.nodes|;
      assert Reaches(w, node, input, tick, n, v, |script|);
      var acc :| Arrives(w, node, input, tick, n, v, |script|, acc);
      SequenceDone(w, node, v, acc);
    }
  }

  lemma SequenceDone(w: World, node: Node, v: Value, acc: Acc)
    requires node.Sequence?
    ensures SequenceFrom(w, node, |node.nodes|, v, acc) == FinishOk(acc, v)
  {
  }

  // Any other goal met by the next node is met by the sequence; a raise after the first
  // node comes after a returned leaf.
  lemma ForcesEnd(
      steady: Names, node: Node, input: Value, i: nat, a: seq<Move>, u: Value, b: seq<Move>, goal: Goal)
    requires node.Sequence? && i < |node.nodes| && !goal.Win?
    requires ForcesUpTo(steady, node, input, i, a, u)
    requires Forces(steady, node.nodes[i], Passed(input, i, u), b, goal)
    ensures Forces(steady, node, input, a + b, goal)
    ensures goal.Raise? && i > 0 ==> Forces(steady, node, input, a + b, RaisePaid)
  {
    hide Exec, SequenceFrom, Plays, NothingReturned;
    forall w, tick: nat | Follows(w, steady, tick, a + b)
      ensures Exec(w, node, input, tick).tick == tick + |a + b|
      ensures Meets(goal, Exec(w, node, input, tick))
      ensures goal.Raise? && i > 0 ==> Meets(RaisePaid, Exec(w, node, input, tick))
    {
      FollowsParts(w, steady, tick, a, b);
      assert Reaches(w, node, input, tick, i, u, |a|);
      var acc :| Arrives(w, node, input, tick, i, u, |a|, acc);
      var current := Passed(input, i, u);
      SequenceStep(w, node, i, current, acc);
      var ran := Exec(w, node.nodes[i], current, acc.tick);
      assert Meets(goal, ran);
      ReturnedIn(acc.log, ran.log);
      ReturnedIn(acc.lost, ran.lost);
    }
  }

  // ---------- fallbacks ----------

  // The first `i` attempts do not succeed; if `lossy`, a returned leaf was dropped.
  ghost predicate Falls(w: World, node: Node, input: Value, tick: nat, i: nat, lossy: bool, made: nat, acc: Acc)
    requires node.Fallback? && i <= |node.fallbacks| + 1
  {
    && acc.tick == tick + made
    && Exec(w, node, input, tick) == FallbackFrom(w, node, i, input, acc)
    && (lossy ==> !NothingReturned(acc.lost))
  }

  ghost predicate Descends(w: World, node: Node, input: Value, tick: nat, i: nat, lossy: bool, made: nat)
    requires node.Fallback? && i <= |node.fallbacks| + 1
  {
    exists acc :: Falls(w, node, input, tick, i, lossy, made, acc)
  }

  ghost predicate ForcesDown(steady: Names, node: Node, input: Value, i: nat, script: seq<Move>, lossy: bool)
    requires node.Fallback? && i <= |node.fallbacks| + 1
  {
    forall w, tick: nat :: Follows(w, steady, tick, script) ==>
      Descends(w, node, input, tick, i, lossy, |script|)
  }

  lemma ForcesNoAttempt(steady: Names, node: Node, input: Value)
    requires node.Fallback?
    ensures ForcesDown(steady, node, input, 0, [], false)
  {
    forall w, tick: nat | Follows(w, steady, tick, []) ensures Descends(w, node, input, tick, 0, false, 0) {
      assert Falls(w, node, input, tick, 0, false, 0, Start(tick));
    }
  }

  // What the next attempt's run does to the fallback.
  lemma FallbackStep(w: World, node: Node, i: nat, input: Value, acc: Acc)
    requires node.Fallback? && i <= |node.fallbacks|
    ensures var ran, whole := Exec(w, Attempt(node, i), input, acc.tick), FallbackFrom(w, node, i, input, acc);
            && (ran.end.Threw? ==>
                  && whole == FallbackFrom(w, node, i + 1, input, Caught(acc, ran))
                  && Caught(acc, ran).tick == ran.tick && Caught(acc, ran).lost == acc.lost + ran.log)
            && (ran.end.Returned? && ran.end.outcome.success ==>
                  whole == FinishOk(Push(acc, ran), ran.end.outcome.output))
            && (ran.end.Returned? && !ran.end.outcome.success ==>
                  whole == FallbackFrom(w, node, i + 1, input, Push(acc, ran)))
  {
    hide Exec;
    RaisedLog(w, Attempt(node, i), input, acc.tick);
  }

  lemma ForcesNextAttempt(
      steady: Names, node: Node, input: Value, i: nat, a: seq<Move>, lossy: bool, b: seq<Move>, goal: Goal)
    requires node.Fallback? && i <= |node.fallbacks| && goal in {Lose, RaisePaid, LoseBill}
    requires ForcesDown(steady, node, input, i, a, lossy) && Forces(steady, Attempt(node, i), input, b, goal)
    ensures ForcesDown(steady, node, input, i + 1, a + b, lossy || goal != Lose)
  {
    hide Exec, FallbackFrom, Push, Caught, Plays, NothingReturned, Attempt;
    var next, made, worse := i + 1, |a + b|, lossy || goal != Lose;
    forall w, tick: nat | Follows(w, steady, tick, a + b)
      ensures Descends(w, node, input, tick, next, worse, made)
    {
      FollowsParts(w, steady, tick, a, b);
      assert Descends(w, node, input, tick, i, lossy, |a|);
      var acc :| Falls(w, node, input, tick, i, lossy, |a|, acc);
      FallbackStep(w, node, i, input, acc);
      var ran := Exec(w, Attempt(node, i), input, acc.tick);
      assert Meets(goal, ran);
      ReturnedIn(acc.lost, ran.log);
      if ran.end.Threw? {
        assert Falls(w, node, input, tick, next, worse, made, Caught(acc, ran));
      } else {
        PushFacts(acc, ran);
        assert Falls(w, node, input, tick, next, worse, made, Push(acc, ran));
      }
    }
  }

  lemma ForcesFailure(steady: Names, node: Node, input: Value, script: seq<Move>, lossy: bool)
    requires node.Fallback? && ForcesDown(steady, node, input, |node.fallbacks| + 1, script, lossy)
    ensures Forces(steady, node, input, script, if lossy then LoseBill else Lose)
  {
    hide Exec, FallbackFrom, Follows, NothingReturned;
    var goal := if lossy then LoseBill else Lose;
    forall w, tick: nat | Follows(w, steady, tick, script)
      ensures Exec(w, node, input, tick).tick == tick + |script| && Meets(goal, Exec(w, node, input, tick))
    {
      var n := |node.fallbacks| + 1;
      assert Descends(w, node, input, tick, n, lossy, |script|);
      var acc :| Falls(w, node, input, tick, n, lossy, |script|, acc);
      FallbackDone(w, node, input, acc);
    }
  }

  lemma FallbackDone(w: World, node: Node, input: Value, acc: Acc)
    requires node.Fallback?
    ensures FallbackFrom(w, node, |node.fallbacks| + 1, input, acc) == FinishFail(acc, LastError(acc.children), Null)
  {
  }

  lemma ForcesFirstAttempt(steady: Names, node: Node, input: Value, script: seq<Move>, v: Value)
    requires node.Fallback? && Forces(steady, node.primary, input, script, Win(v))
    ensures Forces(steady, node, input, script, Win(v))
  {
    hide FallbackFrom, Push, Follows, NothingReturned;
    forall w, tick: nat | Follows(w, steady, tick, script)
      ensures Exec(w, node, input, tick).tick == tick + |script| && Meets(Win(v), Exec(w, node, input, tick))
    {
      FallbackStep(w, node, 0, input, Start(tick));
      var ran := Exec(w, node.primary, input, tick);
      assert Meets(Win(v), ran);
      PushFacts(Start(tick), ran);
    }
  }

  // ---------- conditionals ----------

  function Branch(node: Node, input: Value): Node
    requires node.Conditional?
  {
    if node.test(input) then node.onTrue else node.onFalse
  }

  lemma ForcesBranch(steady: Names, node: Node, input: Value, script: seq<Move>, goal: Goal)
    requires node.Conditional? && Forces(steady, Branch(node, input), input, script, goal)
    ensures Forces(steady, node, input, script, goal)
  {
    hide Meets;
    forall w, tick: nat | Follows(w, steady, tick, script)
      ensures Exec(w, node, input, tick).tick == tick + |script| && Meets(goal, Exec(w, node, input, tick))
    {
      assert Exec(w, node, input, tick) == Exec(w, Branch(node, input), input, tick);
    }
  }

  // ---------- trees of leaves, sequences, fallbacks and conditionals ----------

  // Leaves, non-empty sequences, fallbacks and conditionals: trees that can be made to
  // output anything.
  ghost predicate Plain(node: Node)
    decreases node
  {
    match node
    case Leaf(_) => true
    case Sequence(nodes) => nodes != [] && forall n :: n in nodes ==> Plain(n)
    case Fallback(primary, fallbacks) => Plain(primary) && forall n :: n in fallbacks ==> Plain(n)
    case Conditional(_, onTrue, onFalse) => Plain(onTrue) && Plain(onFalse)
    case _ => false
  }

  lemma LeafForces(steady: Names, name: string, input: Value, v: Value)
    ensures Forces(steady, Leaf(name), input, [Wins(v)], Win(v))
    ensures Forces(steady, Leaf(name), input, [Fails], Lose)
    ensures name !in steady ==> Forces(steady, Leaf(name), input, [Breaks], Raise)
  {
    forall w, tick: nat | Follows(w, steady, tick, [Wins(v)])
      ensures Exec(w, Leaf(name), input, tick).tick == tick + 1 && Meets(Win(v), Exec(w, Leaf(name), input, tick))
    {
      assert Plays(w, steady, tick + 0, [Wins(v)][0]);
      var ran := Exec(w, Leaf(name), input, tick);
      assert ran.log[0] in ran.log;
    }
    forall w, tick: nat | Follows(w, steady, tick, [Fails])
      ensures Exec(w, Leaf(name), input, tick).tick == tick + 1 && Meets(Lose, Exec(w, Leaf(name), input, tick))
    {
      assert Plays(w, steady, tick + 0, [Fails][0]);
    }
    if name !in steady {
      forall w, tick: nat | Follows(w, steady, tick, [Breaks])
        ensures Exec(w, Leaf(name), input, tick).tick == tick + 1 && Meets(Raise, Exec(w, Leaf(name), input, tick))
      {
        assert Plays(w, steady, tick + 0, [Breaks][0]);
      }
    }
  }

  lemma {:induction false} CanWin(steady: Names, node: Node, input: Value, v: Value) returns (s: seq<Move>)
    requires Plain(node)
    ensures Forces(steady, node, input, s, Win(v))
    decreases node, 1
  {
    hide Forces, ForcesUpTo;
    match node
    case Leaf(name) =>
      LeafForces(steady, name, input, v);
      s := [Wins(v)];
    case Sequence(nodes) =>
      s := CanWinUpTo(steady, node, input, |nodes|, v);
      ForcesSuccess(steady, node, input, s, v);
    case Fallback(primary, _) =>
      s := CanWin(steady, primary, input, v);
      ForcesFirstAttempt(steady, node, input, s, v);
    case Conditional(_, _, _) =>
      s := CanWin(steady, Branch(node, input), input, v);
      ForcesBranch(steady, node, input, s, Win(v));
  }

  // The first `i` nodes can be made to succeed, the last of them with `v`.
  lemma {:induction false} CanWinUpTo(steady: Names, node: Node, input: Value, i: nat, v: Value)
    returns (s: seq<Move>)
    requires node.Sequence? && Plain(node) && i <= |node.nodes|
    ensures ForcesUpTo(steady, node, input, i, s, v)
    decreases node, 0, i
  {
    hide Forces, ForcesUpTo;
    if i == 0 {
      s := [];
      ForcesNone(steady, node, input, v);
    } else {
      var a := CanWinUpTo(steady, node, input, i - 1, Null);
      assert node.nodes[i - 1] in node.nodes;
      var b := CanWin(steady, node.nodes[i - 1], Passed(input, i - 1, Null), v);
      ForcesOneMore(steady, node, input, i - 1, a, Null, b, v);
      s := a + b;
    }
  }

  lemma {:induction false} CanLose(steady: Names, node: Node, input: Value) returns (s: seq<Move>)
    requires Plain(node)
    ensures Forces(steady, node, input, s, Lose)
    decreases node, 1
  {
    hide Forces, ForcesUpTo, ForcesDown;
    match node
    case Leaf(name) =>
      LeafForces(steady, name, input, Null);
      s := [Fails];
    case Sequence(nodes) =>
      ForcesNone(steady, node, input, Null);
      var b := CanLose(steady, nodes[0], input);
      ForcesEnd(steady, node, input, 0, [], Null, b, Lose);
      s := [] + b;
    case Fallback(_, fallbacks) =>
      ForcesNoAttempt(steady, node, input);
      s := CanLoseFrom(steady, node, input, 0, [], false);
      ForcesFailure(steady, node, input, s, false);
    case Conditional(_, _, _) =>
      s := CanLose(steady, Branch(node, input), input);
      ForcesBranch(steady, node, input, s, Lose);
  }

  // All attempts from the `i`-th on can be made to fail.
  lemma {:induction false} CanLoseFrom(
      steady: Names, node: Node, input: Value, i: nat, a: seq<Move>, lossy: bool)
    returns (s: seq<Move>)
    requires node.Fallback? && Plain(node) && i <= |node.fallbacks| + 1
    requires ForcesDown(steady, node, input, i, a, lossy)
    ensures ForcesDown(steady, node, input, |node.fallbacks| + 1, s, lossy)
    decreases node, 0, |node.fallbacks| + 1 - i
  {
    hide Forces, ForcesDown;
    if i > |node.fallbacks| {
      s := a;
    } else {
      var b := CanLose(steady, Attempt(node, i), input);
      ForcesNextAttempt(steady, node, input, i, a, lossy, b, Lose);
      s := CanLoseFrom(steady, node, input, i + 1, a + b, lossy);
    }
  }

  // The first `i` attempts can be made to fail.
  lemma {:induction false} CanLoseUpTo(steady: Names, node: Node, input: Value, i: nat) returns (s: seq<Move>)
    requires node.Fallback? && Plain(node) && i <= |node.fallbacks| + 1
    ensures ForcesDown(steady, node, input, i, s, false)
  {
    hide Forces, ForcesDown;
    if i == 0 {
      s := [];
      ForcesNoAttempt(steady, node, input);
    } else {
      var a := CanLoseUpTo(steady, node, input, i - 1);
      var b := CanLose(steady, Attempt(node, i - 1), input);
      ForcesNextAttempt(steady, node, input, i - 1, a, false, b, Lose);
      s := a + b;
    }
  }

  lemma LoudInput(steady: Names, node: Node) returns (input: Value)
    requires !AlwaysQuiet(steady, node)
    ensures !Quiet(steady, node, input)
  {
    input :| !Quiet(steady, node, input);
  }

  lemma LossyInput(steady: Names, node: Node) returns (input: Value)
    requires !AlwaysLossless(steady, node)
    ensures !Lossless(steady, node, input)
  {
    input :| !Lossless(steady, node, input);
  }

  // A tree that is not quiet can be made to raise.
  lemma {:induction false} CanRaise(steady: Names, node: Node, input: Value) returns (s: seq<Move>)
    requires Plain(node) && !Quiet(steady, node, input)
    ensures Forces(steady, node, input, s, Raise)
    decreases node, 1
  {
    hide Forces, ForcesUpTo;
    match node
    case Leaf(name) =>
      LeafForces(steady, name, input, Null);
      s := [Breaks];
    case Sequence(nodes) =>
      if Quiet(steady, nodes[0], input) {
        var i :| 1 <= i < |nodes| && !AlwaysQuiet(steady, nodes[i]);
        var u := LoudInput(steady, nodes[i]);
        s := CanRaiseAt(steady, node, input, i, u);
      } else {
        s := CanRaiseAt(steady, node, input, 0, input);
      }
    case Conditional(_, _, _) =>
      s := CanRaise(steady, Branch(node, input), input);
      ForcesBranch(steady, node, input, s, Raise);
  }

  lemma {:induction false} CanRaiseAt(steady: Names, node: Node, input: Value, i: nat, u: Value)
    returns (s: seq<Move>)
    requires node.Sequence? && Plain(node) && i < |node.nodes|
    requires !Quiet(steady, node.nodes[i], Passed(input, i, u))
    ensures Forces(steady, node, input, s, Raise)
    ensures i > 0 ==> Forces(steady, node, input, s, RaisePaid)
    decreases node, 0
  {
    hide Forces, ForcesUpTo, Quiet;
    var a := CanWinUpTo(steady, node, input, i, u);
    assert node.nodes[i] in node.nodes;
    var b := CanRaise(steady, node.nodes[i], Passed(input, i, u));
    ForcesEnd(steady, node, input, i, a, u, b, Raise);
    s := a + b;
  }

  // A tree that is not atomic can be made to raise after a leaf has returned.
  lemma {:induction false} CanRaisePaid(steady: Names, node: Node, input: Value) returns (s: seq<Move>)
    requires Plain(node) && !Atomic(steady, node, input)
    ensures Forces(steady, node, input, s, RaisePaid)
    decreases node
  {
    hide Forces, ForcesUpTo, Quiet;
    match node
    case Sequence(nodes) =>
      if Atomic(steady, nodes[0], input) {
        var i :| 1 <= i < |nodes| && !AlwaysQuiet(steady, nodes[i]);
        var u := LoudInput(steady, nodes[i]);
        s := CanRaiseAt(steady, node, input, i, u);
      } else {
        ForcesNone(steady, node, input, Null);
        assert nodes[0] in nodes;
        var b := CanRaisePaid(steady, nodes[0], input);
        ForcesEnd(steady, node, input, 0, [], Null, b, RaisePaid);
        s := [] + b;
      }
    case Conditional(_, _, _) =>
      s := CanRaisePaid(steady, Branch(node, input), input);
      ForcesBranch(steady, node, input, s, RaisePaid);
  }

  // A tree that is not lossless can be made to drop a returned leaf.
  lemma {:induction false} CanLoseBill(steady: Names, node: Node, input: Value) returns (s: seq<Move>)
    requires Plain(node) && !Lossless(steady, node, input)
    ensures Forces(steady, node, input, s, LoseBill)
    decreases node
  {
    hide Forces, ForcesUpTo, ForcesDown, Quiet, Atomic;
    match node
    case Sequence(nodes) =>
      var i, u := 0, input;
      if Lossless(steady, nodes[0], input) {
        i :| 1 <= i < |nodes| && !AlwaysLossless(steady, nodes[i]);
        u := LossyInput(steady, nodes[i]);
      }
      var a := CanWinUpTo(steady, node, input, i, u);
      assert nodes[i] in nodes;
      var b := CanLoseBill(steady, nodes[i], Passed(input, i, u));
      ForcesEnd(steady, node, input, i, a, u, b, LoseBill);
      s := a + b;
    case Fallback(primary, fallbacks) =>
      var i := FragileAttempt(steady, node, input);
      var a := CanLoseUpTo(steady, node, input, i);
      var b, goal := [], RaisePaid;
      if Lossless(steady, Attempt(node, i), input) {
        b := CanRaisePaid(steady, Attempt(node, i), input);
      } else {
        b := CanLoseBill(steady, Attempt(node, i), input);
        goal := LoseBill;
      }
      ForcesNextAttempt(steady, node, input, i, a, false, b, goal);
      s := CanLoseFrom(steady, node, input, i + 1, a + b, true);
      ForcesFailure(steady, node, input, s, true);
    case Conditional(_, _, _) =>
      s := CanLoseBill(steady, Branch(node, input), input);
      ForcesBranch(steady, node, input, s, LoseBill);
  }

  lemma FragileAttempt(steady: Names, node: Node, input: Value) returns (i: nat)
    requires node.Fallback? && !Lossless(steady, node, input)
    ensures i <= |node.fallbacks|
    ensures !Lossless(steady, Attempt(node, i), input) || !Atomic(steady, Attempt(node, i), input)
  {
    if Lossless(steady, node.primary, input) && Atomic(steady, node.primary, input) {
      var n :| n in node.fallbacks && !(Lossless(steady, n, input) && Atomic(steady, n, input));
      var j :| 0 <= j < |node.fallbacks| && node.fallbacks[j] == n;
      i := j + 1;
    } else {
      i := 0;
    }
  }

  // ---------- what is lost ----------

  ghost predicate ConservesOn(steady: Names, node: Node, input: Value) {
    forall w, tick: nat :: Steady(w, steady) && Exec(w, node, input, tick).end.Returned? ==>
      BillOf(Exec(w, node, input, tick).end.outcome) == Billed(w, Exec(w, node, input, tick).log)
  }

  lemma ForcedLoss(steady: Names, node: Node, input: Value, script: seq<Move>)
    requires Forces(steady, node, input, script, LoseBill)
    ensures !ConservesOn(steady, node, input)
  {
    hide Exec, Steady, AllReport, Staged, Follows;
    var w := Staged(steady, script);
    StagedFollows(steady, script);
    assert Meets(LoseBill, Exec(w, node, input, 0));
    ConservedExactlyWhenNothingLost(w, node, input, 0);
  }

  // On any input, a tree of leaves, non-empty sequences, fallbacks and conditionals
  // conserves in every world whose steady leaves are steady exactly when it is lossless.
  lemma ConservesExactlyWhenLossless(steady: Names, node: Node, input: Value)
    requires Plain(node)
    ensures ConservesOn(steady, node, input) <==> Lossless(steady, node, input)
  {
    hide Plain, Lossless, Exec, Forces, Steady;
    if Lossless(steady, node, input) {
      forall w, tick: nat | Steady(w, steady) && Exec(w, node, input, tick).end.Returned?
        ensures BillOf(Exec(w, node, input, tick).end.outcome) == Billed(w, Exec(w, node, input, tick).log)
      {
        LosslessTreesConserve(w, steady, node, input, tick);
      }
    } else {
      var s := CanLoseBill(steady, node, input);
      ForcedLoss(steady, node, input, s);
    }
  }

  // ---------- the other modes as attempts ----------

  // An attempt that can raise after a leaf has returned makes any Fallback that tries it
  // first lose that leaf's bill.
  lemma FragileAttemptLoses(steady: Names, node: Node, input: Value, script: seq<Move>)
    requires node.Fallback? && Forces(steady, node.primary, input, script, RaisePaid)
    ensures !ConservesOn(steady, node, input)
  {
    hide Exec, Steady, AllReport, Staged, Follows, FallbackFrom, NothingReturned;
    var w := Staged(steady, script);
    StagedFollows(steady, script);
    ForcesNoAttempt(steady, node, input);
    ForcesNextAttempt(steady, node, input, 0, [], false, script, RaisePaid);
    assert [] + script == script;
    assert Descends(w, node, input, 0, 1, true, |script|);
    var acc :| Falls(w, node, input, 0, 1, true, |script|, acc);
    LossStays(w, node, 1, input, acc);
    FallbackReturns(w, node, 1, input, acc);
    ConservedExactlyWhenNothingLost(w, node, input, 0);
  }

  lemma {:induction false} LossStays(w: World, node: Node, i: nat, input: Value, acc: Acc)
    requires node.Fallback? && i <= |node.fallbacks| + 1 && !NothingReturned(acc.lost)
    ensures !NothingReturned(FallbackFrom(w, node, i, input, acc).lost)
    decreases |node.fallbacks| + 1 - i
  {
    hide Exec, NothingReturned;
    if i <= |node.fallbacks| {
      var ran := Exec(w, Attempt(node, i), input, acc.tick);
      ReturnedIn(acc.lost, ran.lost);
      if ran.end.Threw? {
        LossStays(w, node, i + 1, input, Caught(acc, ran));
      } else if !ran.end.outcome.success {
        LossStays(w, node, i + 1, input, Push(acc, ran));
      }
    }
  }

  // A node that raises after another one has returned leaves a returned leaf in the log.
  lemma RaisesAfter(w: World, steady: Names, tick: nat, first: Node, input: Value, a: seq<Move>, out: Value,
                    second: Node, v: Value, b: seq<Move>)
    requires Follows(w, steady, tick, a + b)
    requires Forces(steady, first, input, a, Win(out)) && Forces(steady, second, v, b, Raise)
    ensures var one := Exec(w, first, input, tick);
            && one.end.Returned? && one.end.outcome.success && one.end.outcome.output == out
            && var acc := Push(Start(tick), one);
               var two := Exec(w, second, v, acc.tick);
               && two.end.Threw?
               && Abort(acc, two).tick == tick + |a + b| && Meets(RaisePaid, Abort(acc, two))
  {
    hide Exec, NothingReturned;
    FollowsParts(w, steady, tick, a, b);
    var one := Exec(w, first, input, tick);
    assert Meets(Win(out), one);
    var acc := Push(Start(tick), one);
    PushFacts(Start(tick), one);
    var two := Exec(w, second, v, acc.tick);
    assert Meets(Raise, two);
    ReturnedIn(acc.log, two.log);
  }

  // A second iteration that raises.
  lemma FragileLoop(steady: Names, node: Node, input: Value, v: Value) returns (s: seq<Move>)
    requires node.Loop? && node.maxIterations >= 2 && node.until(v)
    requires Plain(node.body) && !Quiet(steady, node.body, v)
    ensures Forces(steady, node, input, s, RaisePaid)
  {
    hide Exec, Push, Plain, Quiet;
    var a := CanWin(steady, node.body, input, v);
    var b := CanRaise(steady, node.body, v);
    s := a + b;
    forall w, tick: nat | Follows(w, steady, tick, s)
      ensures Exec(w, node, input, tick).tick == tick + |s| && Meets(RaisePaid, Exec(w, node, input, tick))
    {
      RaisesAfter(w, steady, tick, node.body, input, a, v, node.body, v, b);
      LoopRaises(w, node, input, tick, v);
    }
  }

  lemma LoopRaises(w: World, node: Node, input: Value, tick: nat, v: Value)
    requires node.Loop? && node.maxIterations >= 2 && node.until(v) && forall t :: !w.cancelled(t)
    ensures var one := Exec(w, node.body, input, tick);
            one.end.Returned? && one.end.outcome.success && one.end.outcome.output == v ==>
              var acc := Push(Start(tick), one);
              var two := Exec(w, node.body, v, acc.tick);
              two.end.Threw? ==> Exec(w, node, input, tick) == Abort(acc, two)
  {
    hide Push;
    var one := Exec(w, node.body, input, tick);
    if one.end.Returned? && one.end.outcome.success && one.end.outcome.output == v {
      assert Exec(w, node, input, tick) == LoopFrom(w, node, 1, input, Start(tick));
      assert LoopFrom(w, node, 1, input, Start(tick)) == LoopFrom(w, node, 2, v, Push(Start(tick), one));
    }
  }

  // A worker that raises after its dispatcher was paid for.
  lemma FragileSupervisor(steady: Names, node: Node, input: Value, v: Value) returns (s: seq<Move>)
    requires node.Supervisor? && node.maxRounds >= 1
    requires node.route(v).Some? && node.route(v).value in node.workers
    requires Plain(node.dispatcher)
    requires var worker := node.workers[node.route(v).value]; Plain(worker) && !Quiet(steady, worker, v)
    ensures Forces(steady, node, input, s, RaisePaid)
  {
    hide Exec, Push, Plain, Quiet;
    var worker := node.workers[node.route(v).value];
    var a := CanWin(steady, node.dispatcher, input, v);
    var b := CanRaise(steady, worker, v);
    s := a + b;
    forall w, tick: nat | Follows(w, steady, tick, s)
      ensures Exec(w, node, input, tick).tick == tick + |s| && Meets(RaisePaid, Exec(w, node, input, tick))
    {
      SupervisorRaises(w, node, input, tick, v);
      RaisesAfter(w, steady, tick, node.dispatcher, input, a, v, worker, v, b);
    }
  }

  lemma SupervisorRaises(w: World, node: Node, input: Value, tick: nat, v: Value)
    requires node.Supervisor? && node.maxRounds >= 1 && forall t :: !w.cancelled(t)
    requires node.route(v).Some? && node.route(v).value in node.workers
    ensures var one := Exec(w, node.dispatcher, input, tick);
            one.end.Returned? && one.end.outcome.success && one.end.outcome.output == v ==>
              var acc := Push(Start(tick), one);
              var two := Exec(w, node.workers[node.route(v).value], v, acc.tick);
              two.end.Threw? ==> Exec(w, node, input, tick) == Abort(acc, two)
  {
    hide Push;
    assert Exec(w, node, input, tick) == SupervisorFrom(w, node, 1, input, Start(tick));
  }

  // The second agent raises after the first was paid for.
  lemma FragileHandoff(steady: Names, node: Node, input: Value, v: Value) returns (s: seq<Move>)
    requires node.HandoffChain? && node.maxHandoffs >= 1 && node.initial in node.agents
    requires node.target(v).Some? && node.target(v).value in node.agents
    requires Plain(node.agents[node.initial])
    requires var agent := node.agents[node.target(v).value]; Plain(agent) && !Quiet(steady, agent, v)
    ensures Forces(steady, node, input, s, RaisePaid)
  {
    hide Exec, Push, Plain, Quiet;
    var first, second := node.agents[node.initial], node.agents[node.target(v).value];
    var a := CanWin(steady, first, input, v);
    var b := CanRaise(steady, second, v);
    s := a + b;
    forall w, tick: nat | Follows(w, steady, tick, s)
      ensures Exec(w, node, input, tick).tick == tick + |s| && Meets(RaisePaid, Exec(w, node, input, tick))
    {
      HandoffRaises(w, node, input, tick, v);
      RaisesAfter(w, steady, tick, first, input, a, v, second, v, b);
    }
  }

  lemma HandoffRaises(w: World, node: Node, input: Value, tick: nat, v: Value)
    requires node.HandoffChain? && node.maxHandoffs >= 1 && node.initial in node.agents
    requires node.target(v).Some? && node.target(v).value in node.agents
    ensures var one := Exec(w, node.agents[node.initial], input, tick);
            one.end.Returned? && one.end.outcome.success && one.end.outcome.output == v ==>
              var acc := Push(Start(tick), one);
              var two := Exec(w, node.agents[node.target(v).value], v, acc.tick);
              two.end.Threw? ==> Exec(w, node, input, tick) == Abort(acc, two)
  {
    hide Push;
    var one := Exec(w, node.agents[node.initial], input, tick);
    assert Exec(w, node, input, tick) == HandoffFrom(w, node, 0, node.initial, input, Start(tick));
    if one.end.Returned? && one.end.outcome.success && one.end.outcome.output == v {
      assert HandoffFrom(w, node, 0, node.initial, input, Start(tick))
          == HandoffFrom(w, node, 1, node.target(v).value, v, Push(Start(tick), one));
    }
  }

  // The evaluator raises after the expander was paid for.
  lemma FragileTreeSearch(steady: Names, node: Node, input: Value, v: Value) returns (s: seq<Move>)
    requires node.TreeSearch? && node.maxDepth >= 1
    requires Plain(node.expander) && Plain(node.evaluator) && !Quiet(steady, node.evaluator, v)
    ensures Forces(steady, node, input, s, RaisePaid)
  {
    hide Exec, Push, Plain, Quiet;
    var a := CanWin(steady, node.expander, input, Array([v]));
    var b := CanRaise(steady, node.evaluator, v);
    s := a + b;
    forall w, tick: nat | Follows(w, steady, tick, s)
      ensures Exec(w, node, input, tick).tick == tick + |s| && Meets(RaisePaid, Exec(w, node, input, tick))
    {
      TreeRaises(w, node, input, tick, v);
      RaisesAfter(w, steady, tick, node.expander, input, a, Array([v]), node.evaluator, v, b);
    }
  }

  lemma TreeRaises(w: World, node: Node, input: Value, tick: nat, v: Value)
    requires node.TreeSearch? && node.maxDepth >= 1
    ensures var one := Exec(w, node.expander, input, tick);
            one.end.Returned? && one.end.outcome.success && one.end.outcome.output == Array([v]) ==>
              var acc := Push(Start(tick), one);
              var two := Exec(w, node.evaluator, v, acc.tick);
              two.end.Threw? ==> Exec(w, node, input, tick) == Abort(acc, two)
  {
    hide Push, Rank;
    var one := Exec(w, node.expander, input, tick);
    if one.end.Returned? && one.end.outcome.success && one.end.outcome.output == Array([v]) {
      var acc := Push(Start(tick), one);
      assert [input][0] == input && [] + Collected(Array([v])) == [v];
      assert ExpandFrom(w, node, [input], 1, [v], acc) == Proceed([v], acc, 1);
      assert ExpandFrom(w, node, [input], 0, [], Start(tick)) == Proceed([v], acc, 1);
      var two := Exec(w, node.evaluator, v, acc.tick);
      if two.end.Threw? {
        assert [v][0] == v;
        assert ScoreFrom(w, node, [v], 0, [], acc) == Halt(Abort(acc, two), 1);
      }
    }
  }

  // A mode over such trees that goes on, after a node that can be paid for, to a node
  // that can raise on what it is given, `v`.
  ghost predicate Fragile(steady: Names, node: Node, input: Value, v: Value) {
    match node
    case Loop(body, until, maxIterations) =>
      maxIterations >= 2 && until(v) && Plain(body) && !Quiet(steady, body, v)
    case Supervisor(dispatcher, workers, maxRounds, route) =>
      && maxRounds >= 1 && Plain(dispatcher) && route(v).Some? && route(v).value in workers
      && Plain(workers[route(v).value]) && !Quiet(steady, workers[route(v).value], v)
    case HandoffChain(agents, initial, maxHandoffs, target) =>
      && maxHandoffs >= 1 && initial in agents && Plain(agents[initial])
      && target(v).Some? && target(v).value in agents
      && Plain(agents[target(v).value]) && !Quiet(steady, agents[target(v).value], v)
    case TreeSearch(expander, evaluator, maxDepth, _) =>
      maxDepth >= 1 && Plain(expander) && Plain(evaluator) && !Quiet(steady, evaluator, v)
    case _ => Plain(node) && !Atomic(steady, node, input)
  }

  // Tried first, each of these loses a bill in some world, whatever is tried next.
  lemma FragileAttemptsLose(steady: Names, node: Node, input: Value, v: Value)
    requires node.Fallback? && Fragile(steady, node.primary, input, v)
    ensures !ConservesOn(steady, node, input)
  {
    hide Forces, Plain, Quiet, Atomic, ConservesOn;
    var s;
    match node.primary {
      case Loop(_, _, _) => s := FragileLoop(steady, node.primary, input, v);
      case Supervisor(_, _, _, _) => s := FragileSupervisor(steady, node.primary, input, v);
      case HandoffChain(_, _, _, _) => s := FragileHandoff(steady, node.primary, input, v);
      case TreeSearch(_, _, _, _) => s := FragileTreeSearch(steady, node.primary, input, v);
      case _ => s := CanRaisePaid(steady, node.primary, input);
    }
    FragileAttemptLoses(steady, node, input, s);
  }
}
