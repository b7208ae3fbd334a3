/** Which mode trees can raise an exception on an input, and which of those only before any
    leaf has returned, read off the tree, the input and the names of leaves known never to
    raise. */
module Exceptions {
  import opened JsonValue
  import opened Modes
  import opened Ranking
  import opened Wrappers

  type Names = iset<string>

  ghost predicate NothingReturned(log: seq<Call>) {
    forall c :: c in log ==> !c.returned
  }

  // The named leaves never raise.
  ghost predicate Steady(w: World, steady: Names) {
    forall name, tick, input :: name in steady ==> w.leaf(name, tick, input).Answers?
  }

  // The tree cannot raise on this input. What a node passes on can be anything.
  ghost predicate Quiet(steady: Names, node: Node, input: Value)
    decreases node, 0
  {
    match node
    case Leaf(name) => name in steady
    case Sequence(nodes) =>
      nodes == [] || (Quiet(steady, nodes[0], input) && forall i :: 1 <= i < |nodes| ==> AlwaysQuiet(steady, nodes[i]))
    case Loop(body, _, maxIterations) => maxIterations <= 0 || AlwaysQuiet(steady, body)
    case Fallback(_, _) => true
    case Conditional(test, onTrue, onFalse) => Quiet(steady, if test(input) then onTrue else onFalse, input)
    case Supervisor(dispatcher, workers, maxRounds, _) =>
      || maxRounds <= 0
      || (AlwaysQuiet(steady, dispatcher) && forall k :: k in workers ==> AlwaysQuiet(steady, workers[k]))
    case HandoffChain(agents, _, maxHandoffs, _) =>
      maxHandoffs < 0 || forall k :: k in agents ==> AlwaysQuiet(steady, agents[k])
    case TreeSearch(expander, evaluator, maxDepth, beamWidth) =>
      maxDepth <= 0 || (AlwaysQuiet(steady, expander) && AlwaysQuiet(steady, evaluator) && beamWidth >= 1)
  }

  ghost predicate AlwaysQuiet(steady: Names, node: Node)
    decreases node, 1
  {
    forall input: Value :: Quiet(steady, node, input)
  }

  // On this input the tree raises, if at all, before any of its leaves has returned.
  ghost predicate Atomic(steady: Names, node: Node, input: Value)
    decreases node
  {
    match node
    case Leaf(_) => true
    case Sequence(nodes) =>
      || nodes == []
      || (Atomic(steady, nodes[0], input) && forall i :: 1 <= i < |nodes| ==> AlwaysQuiet(steady, nodes[i]))
    case Loop(body, _, maxIterations) =>
      Quiet(steady, node, input) || (maxIterations <= 1 && Atomic(steady, body, input))
    case Fallback(_, _) => true
    case Conditional(test, onTrue, onFalse) => Atomic(steady, if test(input) then onTrue else onFalse, input)
    case Supervisor(dispatcher, workers, maxRounds, _) =>
      || Quiet(steady, node, input)
      || (&& maxRounds <= 1 && Atomic(steady, dispatcher, input)
          && forall k :: k in workers ==> AlwaysQuiet(steady, workers[k]))
    case HandoffChain(agents, initial, maxHandoffs, _) =>
      || Quiet(steady, node, input)
      || (maxHandoffs <= 0 && (initial in agents ==> Atomic(steady, agents[initial], input)))
    case TreeSearch(expander, evaluator, maxDepth, beamWidth) =>
      || Quiet(steady, node, input)
      || (maxDepth <= 1 && beamWidth >= 1 && Atomic(steady, expander, input) && AlwaysQuiet(steady, evaluator))
  }

  lemma {:induction false} QuietIsAtomic(steady: Names, node: Node, input: Value)
    requires Quiet(steady, node, input)
    ensures Atomic(steady, node, input)
    decreases node
  {
    match node
    case Sequence(nodes) =>
      if nodes != [] {
        QuietIsAtomic(steady, nodes[0], input);
      }
    case Conditional(test, onTrue, onFalse) => QuietIsAtomic(steady, if test(input) then onTrue else onFalse, input);
    case _ =>
  }

  // ---------- quiet trees ----------

  lemma {:induction false} QuietReturns(w: World, steady: Names, node: Node, input: Value, tick: nat)
    requires Steady(w, steady) && Quiet(steady, node, input)
    ensures Exec(w, node, input, tick).end.Returned?
    decreases node, 2, 0
  {
    hide Steady;
    match node
    case Leaf(name) => SteadyLeaf(w, steady, name, tick, input);
    case Sequence(_) => QuietSequence(w, steady, node, 0, input, Start(tick));
    case Loop(_, _, _) => QuietLoop(w, steady, node, 1, input, Start(tick));
    case Fallback(_, _) => FallbackReturns(w, node, 0, input, Start(tick));
    case Conditional(test, onTrue, onFalse) =>
      QuietReturns(w, steady, if test(input) then onTrue else onFalse, input, tick);
    case Supervisor(_, _, _, _) => QuietSupervisor(w, steady, node, 1, input, Start(tick));
    case HandoffChain(_, initial, _, _) => QuietHandoff(w, steady, node, 0, initial, input, Start(tick));
    case TreeSearch(_, _, _, _) => QuietTree(w, steady, node, 1, [input], None, Start(tick));
  }

  lemma SteadyLeaf(w: World, steady: Names, name: string, tick: nat, input: Value)
    requires Steady(w, steady) && name in steady
    ensures w.leaf(name, tick, input).Answers?
  {
  }

  lemma {:induction false} QuietSequence(w: World, steady: Names, node: Node, i: nat, current: Value, acc: Acc)
    requires node.Sequence? && i <= |node.nodes| && Steady(w, steady)
    requires i == 0 && node.nodes != [] ==> Quiet(steady, node.nodes[0], current)
    requires forall j :: i <= j < |node.nodes| && j > 0 ==> AlwaysQuiet(steady, node.nodes[j])
    ensures SequenceFrom(w, node, i, current, acc).end.Returned?
    decreases node, 1, |node.nodes| - i
  {
    hide Steady, Exec, Push;
    if i < |node.nodes| && !w.cancelled(acc.tick) {
      QuietReturns(w, steady, node.nodes[i], current, acc.tick);
      var ran := Exec(w, node.nodes[i], current, acc.tick);
      if ran.end.outcome.success {
        QuietSequence(w, steady, node, i + 1, ran.end.outcome.output, Push(acc, ran));
      }
    }
  }

  lemma {:induction false} QuietLoop(w: World, steady: Names, node: Node, iteration: int, current: Value, acc: Acc)
    requires node.Loop? && Steady(w, steady)
    requires iteration > node.maxIterations || AlwaysQuiet(steady, node.body)
    ensures LoopFrom(w, node, iteration, current, acc).end.Returned?
    decreases node, 1, node.maxIterations + 1 - iteration
  {
    hide Steady, Exec, Push;
    if iteration <= node.maxIterations && !w.cancelled(acc.tick) {
      QuietReturns(w, steady, node.body, current, acc.tick);
      var ran := Exec(w, node.body, current, acc.tick);
      if ran.end.outcome.success && node.until(ran.end.outcome.output) {
        QuietLoop(w, steady, node, iteration + 1, ran.end.outcome.output, Push(acc, ran));
      }
    }
  }

  // Whatever its attempts do.
  lemma {:induction false} FallbackReturns(w: World, node: Node, i: nat, input: Value, acc: Acc)
    requires node.Fallback? && i <= |node.fallbacks| + 1
    ensures FallbackFrom(w, node, i, input, acc).end.Returned?
    decreases |node.fallbacks| + 1 - i
  {
    hide Exec, Push, Caught;
    if i <= |node.fallbacks| {
      var ran := Exec(w, Attempt(node, i), input, acc.tick);
      if ran.end.Threw? {
        FallbackReturns(w, node, i + 1, input, Caught(acc, ran));
      } else if !ran.end.outcome.success {
        FallbackReturns(w, node, i + 1, input, Push(acc, ran));
      }
    }
  }

  lemma {:induction false} QuietSupervisor(
      w: World, steady: Names, node: Node, iteration: int, current: Value, acc: Acc)
    requires node.Supervisor? && Steady(w, steady)
    requires iteration > node.maxRounds
             || (&& AlwaysQuiet(steady, node.dispatcher)
                 && forall k :: k in node.workers ==> AlwaysQuiet(steady, node.workers[k]))
    ensures SupervisorFrom(w, node, iteration, current, acc).end.Returned?
    decreases node, 1, node.maxRounds + 1 - iteration
  {
    hide Steady, Exec, Push;
    if iteration <= node.maxRounds && !w.cancelled(acc.tick) {
      QuietReturns(w, steady, node.dispatcher, current, acc.tick);
      var sup := Exec(w, node.dispatcher, current, acc.tick);
      var plan, next := sup.end.outcome, Push(acc, sup);
      var route := node.route(plan.output);
      if plan.success && route.Some? && route.value in node.workers {
        QuietReturns(w, steady, node.workers[route.value], plan.output, next.tick);
        var work := Exec(w, node.workers[route.value], plan.output, next.tick);
        if work.end.outcome.success {
          QuietSupervisor(w, steady, node, iteration + 1, work.end.outcome.output, Push(next, work));
        }
      }
    }
  }

  lemma {:induction false} QuietHandoff(
      w: World, steady: Names, node: Node, hop: int, name: string, current: Value, acc: Acc)
    requires node.HandoffChain? && Steady(w, steady)
    requires hop > node.maxHandoffs || forall k :: k in node.agents ==> AlwaysQuiet(steady, node.agents[k])
    ensures HandoffFrom(w, node, hop, name, current, acc).end.Returned?
    decreases node, 1, node.maxHandoffs + 1 - hop
  {
    hide Steady, Exec, Push;
    if hop <= node.maxHandoffs && name in node.agents {
      QuietReturns(w, steady, node.agents[name], current, acc.tick);
      var ran := Exec(w, node.agents[name], current, acc.tick);
      var target := node.target(ran.end.outcome.output);
      if ran.end.outcome.success && target.Some? {
        QuietHandoff(w, steady, node, hop + 1, target.value, ran.end.outcome.output, Push(acc, ran));
      }
    }
  }

  lemma {:induction false} QuietExpand(
      w: World, steady: Names, node: Node, beam: seq<Value>, i: nat, candidates: seq<Value>, acc: Acc)
    requires node.TreeSearch? && i <= |beam| && Steady(w, steady) && AlwaysQuiet(steady, node.expander)
    ensures var p := ExpandFrom(w, node, beam, i, candidates, acc);
            p.Halt? ==> p.ran.end.Returned?
    decreases node, 0, |beam| - i
  {
    hide Steady, Exec, Push;
    if i < |beam| {
      QuietReturns(w, steady, node.expander, beam[i], acc.tick);
      var ran := Exec(w, node.expander, beam[i], acc.tick);
      if ran.end.outcome.success {
        QuietExpand(w, steady, node, beam, i + 1, candidates + Collected(ran.end.outcome.output), Push(acc, ran));
      }
    }
  }

  lemma {:induction false} QuietScore(
      w: World, steady: Names, node: Node, candidates: seq<Value>, i: nat, scored: seq<Scored<Value>>, acc: Acc)
    requires node.TreeSearch? && i <= |candidates| && Steady(w, steady) && AlwaysQuiet(steady, node.evaluator)
    ensures var p := ScoreFrom(w, node, candidates, i, scored, acc);
            p.Halt? ==> p.ran.end.Returned?
    decreases node, 0, |candidates| - i
  {
    hide Steady, Exec, Push;
    if i < |candidates| {
      QuietReturns(w, steady, node.evaluator, candidates[i], acc.tick);
      var ran := Exec(w, node.evaluator, candidates[i], acc.tick);
      var outcome := ran.end.outcome;
      if outcome.success && w.asFloat(outcome.output).Some? {
        var entry := Scored(w.asFloat(outcome.output).value, candidates[i]);
        QuietScore(w, steady, node, candidates, i + 1, scored + [entry], Push(acc, ran));
      }
    }
  }

  lemma {:induction false} ScoreCount(
      w: World, node: Node, candidates: seq<Value>, i: nat, scored: seq<Scored<Value>>, acc: Acc)
    requires node.TreeSearch? && i <= |candidates|
    ensures var p := ScoreFrom(w, node, candidates, i, scored, acc);
            p.Proceed? ==> |p.items| == |scored| + |candidates| - i && p.calls == |candidates|
    ensures ScoreFrom(w, node, candidates, i, scored, acc).calls <= |candidates|
    decreases |candidates| - i
  {
    hide Exec, Push, Abort, FinishFail;
    if i < |candidates| {
      var ran := Exec(w, node.evaluator, candidates[i], acc.tick);
      if ran.end.Returned? && ran.end.outcome.success && w.asFloat(ran.end.outcome.output).Some? {
        var entry := Scored(w.asFloat(ran.end.outcome.output).value, candidates[i]);
        ScoreCount(w, node, candidates, i + 1, scored + [entry], Push(acc, ran));
      }
    }
  }

  // The second half of a level: scoring, cutting, and going down.
  lemma {:induction false} QuietLevel(
      w: World, steady: Names, node: Node, depth: int, candidates: seq<Value>, best: Option<Scored<Value>>, acc: Acc)
    requires node.TreeSearch? && node.beamWidth >= 1 && depth <= node.maxDepth && candidates != []
    requires Steady(w, steady) && AlwaysQuiet(steady, node.evaluator)
    requires depth + 1 > node.maxDepth || AlwaysQuiet(steady, node.expander)
    ensures match ScoreFrom(w, node, candidates, 0, [], acc)
            case Halt(ran, _) => ran.end.Returned?
            case Proceed(scored, acc2, _) =>
              var top := Slice(Rank(scored), node.beamWidth);
              && (best.None? ==> top != [])
              && TreeFrom(w, node, depth + 1, Items(top), Better(best, top), acc2).ran.end.Returned?
    decreases node, 1, node.maxDepth + 1 - depth, 0
  {
    hide Steady, ScoreFrom, TreeFrom, Rank, Items;
    QuietScore(w, steady, node, candidates, 0, [], acc);
    ScoreCount(w, node, candidates, 0, [], acc);
    var scored := ScoreFrom(w, node, candidates, 0, [], acc);
    if scored.Proceed? {
      var top := Slice(Rank(scored.items), node.beamWidth);
      QuietTree(w, steady, node, depth + 1, Items(top), Better(best, top), scored.acc);
    }
  }

  lemma {:induction false} QuietTree(
      w: World, steady: Names, node: Node, depth: int, beam: seq<Value>, best: Option<Scored<Value>>, acc: Acc)
    requires node.TreeSearch? && Steady(w, steady)
    requires depth > node.maxDepth
             || (AlwaysQuiet(steady, node.expander) && AlwaysQuiet(steady, node.evaluator) && node.beamWidth >= 1)
    ensures TreeFrom(w, node, depth, beam, best, acc).ran.end.Returned?
    decreases node, 1, node.maxDepth + 1 - depth
  {
    hide Steady, ExpandFrom, ScoreFrom, Rank, Items;
    if depth <= node.maxDepth {
      QuietExpand(w, steady, node, beam, 0, [], acc);
      var expanded := ExpandFrom(w, node, beam, 0, [], acc);
      if expanded.Proceed? && expanded.items != [] {
        QuietLevel(w, steady, node, depth, expanded.items, best, expanded.acc);
      }
    }
  }

  // ---------- atomic trees ----------

  // An atomic tree that raises has had no leaf return.
  lemma {:induction false} AtomicRaisesFirst(w: World, steady: Names, node: Node, input: Value, tick: nat)
    requires Steady(w, steady) && Atomic(steady, node, input)
    ensures var ran := Exec(w, node, input, tick);
            ran.end.Threw? ==> NothingReturned(ran.log)
    decreases node, 2, 0
  {
    hide Steady, Quiet, NothingReturned;
    if Quiet(steady, node, input) {
      QuietReturns(w, steady, node, input, tick);
    } else {
      match node
      case Leaf(name) => LeafRaises(w, name, input, tick);
      case Sequence(_) => AtomicSequence(w, steady, node, input, tick);
      case Loop(_, _, _) => AtomicLoop(w, steady, node, input, tick);
      case Fallback(_, _) => FallbackReturns(w, node, 0, input, Start(tick));
      case Conditional(test, onTrue, onFalse) =>
        AtomicRaisesFirst(w, steady, if test(input) then onTrue else onFalse, input, tick);
      case Supervisor(_, _, _, _) => AtomicSupervisor(w, steady, node, input, tick);
      case HandoffChain(_, _, _, _) => AtomicHandoff(w, steady, node, input, tick);
      case TreeSearch(_, _, _, _) => AtomicTree(w, steady, node, input, tick);
    }
  }

  lemma LeafRaises(w: World, name: string, input: Value, tick: nat)
    ensures var ran := ExecLeaf(w, name, input, tick);
            ran.end.Threw? ==> NothingReturned(ran.log)
  {
  }

  lemma FirstAborts(tick: nat, ran: Ran)
    ensures Abort(Start(tick), ran).log == ran.log
  {
  }

  lemma {:induction false} AtomicSequence(w: World, steady: Names, node: Node, input: Value, tick: nat)
    requires node.Sequence? && Steady(w, steady) && Atomic(steady, node, input)
    ensures var ran := Exec(w, node, input, tick);
            ran.end.Threw? ==> NothingReturned(ran.log)
    decreases node, 1
  {
    hide Steady, Quiet, NothingReturned, Push, Start, Abort;
    var acc := Start(tick);
    assert acc.tick == tick by { StartTick(tick); }
    if node.nodes != [] && !w.cancelled(tick) {
      AtomicRaisesFirst(w, steady, node.nodes[0], input, tick);
      var ran := Exec(w, node.nodes[0], input, tick);
      FirstAborts(tick, ran);
      if ran.end.Returned? && ran.end.outcome.success {
        QuietSequence(w, steady, node, 1, ran.end.outcome.output, Push(acc, ran));
      }
    }
  }

  lemma StartTick(tick: nat)
    ensures Start(tick).tick == tick
  {
  }

  lemma {:induction false} AtomicLoop(w: World, steady: Names, node: Node, input: Value, tick: nat)
    requires node.Loop? && node.maxIterations <= 1 && Steady(w, steady) && Atomic(steady, node.body, input)
    ensures var ran := Exec(w, node, input, tick);
            ran.end.Threw? ==> NothingReturned(ran.log)
    decreases node, 1
  {
    hide Steady, Quiet, NothingReturned, Push, Start, Abort;
    var acc := Start(tick);
    assert acc.tick == tick by { StartTick(tick); }
    if node.maxIterations == 1 && !w.cancelled(tick) {
      AtomicRaisesFirst(w, steady, node.body, input, tick);
      var ran := Exec(w, node.body, input, tick);
      FirstAborts(tick, ran);
      if ran.end.Returned? {
        QuietLoop(w, steady, node, 2, ran.end.outcome.output, Push(acc, ran));
      }
    }
  }

  lemma {:induction false} AtomicSupervisor(w: World, steady: Names, node: Node, input: Value, tick: nat)
    requires node.Supervisor? && node.maxRounds <= 1 && Steady(w, steady) && Atomic(steady, node.dispatcher, input)
    requires forall k :: k in node.workers ==> AlwaysQuiet(steady, node.workers[k])
    ensures var ran := Exec(w, node, input, tick);
            ran.end.Threw? ==> NothingReturned(ran.log)
    decreases node, 1
  {
    hide Steady, Quiet, NothingReturned, Push, Start, Abort;
    var acc := Start(tick);
    assert acc.tick == tick by { StartTick(tick); }
    if node.maxRounds == 1 && !w.cancelled(tick) {
      AtomicRaisesFirst(w, steady, node.dispatcher, input, tick);
      var sup := Exec(w, node.dispatcher, input, tick);
      FirstAborts(tick, sup);
      if sup.end.Returned? {
        var plan, next := sup.end.outcome, Push(acc, sup);
        var route := node.route(plan.output);
        if plan.success && route.Some? && route.value in node.workers {
          QuietReturns(w, steady, node.workers[route.value], plan.output, next.tick);
          var work := Exec(w, node.workers[route.value], plan.output, next.tick);
          QuietSupervisor(w, steady, node, 2, work.end.outcome.output, Push(next, work));
        }
      }
    }
  }

  lemma {:induction false} AtomicHandoff(w: World, steady: Names, node: Node, input: Value, tick: nat)
    requires node.HandoffChain? && node.maxHandoffs <= 0 && Steady(w, steady)
    requires node.initial in node.agents ==> Atomic(steady, node.agents[node.initial], input)
    ensures var ran := Exec(w, node, input, tick);
            ran.end.Threw? ==> NothingReturned(ran.log)
    decreases node, 1
  {
    hide Steady, Quiet, NothingReturned, Push, Start, Abort;
    var acc := Start(tick);
    assert acc.tick == tick by { StartTick(tick); }
    if node.maxHandoffs == 0 && node.initial in node.agents {
      AtomicRaisesFirst(w, steady, node.agents[node.initial], input, tick);
      var ran := Exec(w, node.agents[node.initial], input, tick);
      FirstAborts(tick, ran);
      if ran.end.Returned? {
        var target := node.target(ran.end.outcome.output);
        if target.Some? {
          QuietHandoff(w, steady, node, 1, target.value, ran.end.outcome.output, Push(acc, ran));
        }
      }
    }
  }

  lemma ExpandOne(w: World, node: Node, input: Value, acc: Acc)
    requires node.TreeSearch?
    ensures var ran, p := Exec(w, node.expander, input, acc.tick), ExpandFrom(w, node, [input], 0, [], acc);
            p.Halt? && p.ran.end.Threw? ==> ran.end.Threw? && p.ran == Abort(acc, ran)
  {
    hide Exec, Push, Abort;
    var ran := Exec(w, node.expander, [input][0], acc.tick);
    if ran.end.Returned? && ran.end.outcome.success {
      var more := [] + Collected(ran.end.outcome.output);
      assert ExpandFrom(w, node, [input], 1, more, Push(acc, ran)).Proceed?;
    }
  }

  lemma {:induction false} AtomicTree(w: World, steady: Names, node: Node, input: Value, tick: nat)
    requires node.TreeSearch? && node.maxDepth <= 1 && node.beamWidth >= 1 && Steady(w, steady)
    requires Atomic(steady, node.expander, input) && AlwaysQuiet(steady, node.evaluator)
    ensures var ran := Exec(w, node, input, tick);
            ran.end.Threw? ==> NothingReturned(ran.log)
    decreases node, 1
  {
    hide Steady, Quiet, NothingReturned, Push, Start, Abort, ScoreFrom, Rank, Items, Better, Slice;
    var acc := Start(tick);
    assert acc.tick == tick by { StartTick(tick); }
    if node.maxDepth == 1 {
      AtomicRaisesFirst(w, steady, node.expander, input, tick);
      var ran := Exec(w, node.expander, input, tick);
      FirstAborts(tick, ran);
      ExpandOne(w, node, input, acc);
      var expanded := ExpandFrom(w, node, [input], 0, [], acc);
      if expanded.Proceed? && expanded.items != [] {
        QuietLevel(w, steady, node, 1, expanded.items, None, expanded.acc);
      }
    }
  }
}
