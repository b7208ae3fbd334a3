/** Token and cost conservation over mode trees: what the root outcome reports, together
    with what was dropped when a Fallback swallowed an exception, is the sum over every
    leaf execution that returned; and in lossless trees nothing is dropped. */
module Conservation {
  import opened Exceptions
  import opened JsonValue
  import opened Modes
  import opened Ranking
  import opened Usage
  import opened Wrappers

  // The fieldwise optional sum over the calls that returned an outcome.
  function Billed(w: World, log: seq<Call>): Bill {
    if log == [] then NO_BILL
    else if log[0].returned then Plus(Bill(w.usage(log[0].tick), w.cost(log[0].tick)), Billed(w, log[1..]))
    else Billed(w, log[1..])
  }

  function Children(outcomes: seq<Outcome>): Bill {
    Folded(NO_BILL, outcomes)
  }

  // Every leaf execution from `start` up to `tick`, each once and in order.
  ghost predicate Complete(log: seq<Call>, start: nat, tick: nat) {
    start + |log| == tick && forall i :: 0 <= i < |log| ==> log[i].tick == start + i
  }

  ghost predicate LeavesNeverRaise(w: World) {
    forall name, tick, input :: w.leaf(name, tick, input).Answers?
  }

  // Every tree search in the tree keeps at least one candidate per level.
  ghost predicate BeamsPositive(node: Node)
    decreases node
  {
    match node
    case Leaf(_) => true
    case Sequence(nodes) => forall n :: n in nodes ==> BeamsPositive(n)
    case Loop(body, _, _) => BeamsPositive(body)
    case Fallback(primary, fallbacks) => BeamsPositive(primary) && forall n :: n in fallbacks ==> BeamsPositive(n)
    case Conditional(_, onTrue, onFalse) => BeamsPositive(onTrue) && BeamsPositive(onFalse)
    case Supervisor(dispatcher, workers, _, _) =>
      BeamsPositive(dispatcher) && forall k :: k in workers ==> BeamsPositive(workers[k])
    case HandoffChain(agents, _, _, _) => forall k :: k in agents ==> BeamsPositive(agents[k])
    case TreeSearch(expander, evaluator, _, beamWidth) =>
      BeamsPositive(expander) && BeamsPositive(evaluator) && beamWidth >= 1
  }

  // On this input, whatever a Fallback tries anywhere in the tree is atomic there. What a
  // node passes on can be anything.
  ghost predicate Lossless(steady: Names, node: Node, input: Value)
    decreases node, 0
  {
    match node
    case Leaf(_) => true
    case Sequence(nodes) =>
      || nodes == []
      || (Lossless(steady, nodes[0], input) && forall i :: 1 <= i < |nodes| ==> AlwaysLossless(steady, nodes[i]))
    case Loop(body, _, _) => AlwaysLossless(steady, body)
    case Fallback(primary, fallbacks) =>
      && Lossless(steady, primary, input) && Atomic(steady, primary, input)
      && forall n :: n in fallbacks ==> Lossless(steady, n, input) && Atomic(steady, n, input)
    case Conditional(test, onTrue, onFalse) => Lossless(steady, if test(input) then onTrue else onFalse, input)
    case Supervisor(dispatcher, workers, _, _) =>
      AlwaysLossless(steady, dispatcher) && forall k :: k in workers ==> AlwaysLossless(steady, workers[k])
    case HandoffChain(agents, _, _, _) => forall k :: k in agents ==> AlwaysLossless(steady, agents[k])
    case TreeSearch(expander, evaluator, _, _) => AlwaysLossless(steady, expander) && AlwaysLossless(steady, evaluator)
  }

  ghost predicate AlwaysLossless(steady: Names, node: Node)
    decreases node, 1
  {
    forall input: Value :: Lossless(steady, node, input)
  }

  // What is to be shown of a run: that the books balance, or that in a lossless tree
  // nothing is dropped either.
  datatype Aim = Balance | NoLoss(steady: Names)

  ghost predicate Kept(w: World, aim: Aim, node: Node, input: Value) {
    aim.NoLoss? ==> Steady(w, aim.steady) && Lossless(aim.steady, node, input)
  }

  // What holds of every finished node run begun at `start`.
  ghost predicate Accounted(w: World, aim: Aim, start: nat, ran: Ran) {
    && Complete(ran.log, start, ran.tick)
    && (aim.NoLoss? && ran.end.Returned? ==> NothingReturned(ran.lost))
    && match ran.end {
         case Threw(_) => ran.lost == ran.log
         case Returned(outcome) => Plus(BillOf(outcome), Billed(w, ran.lost)) == Billed(w, ran.log)
       }
  }

  // The same of a mode in progress.
  ghost predicate Collecting(w: World, aim: Aim, start: nat, acc: Acc) {
    && Complete(acc.log, start, acc.tick)
    && (aim.NoLoss? ==> NothingReturned(acc.lost))
    && Plus(Children(acc.children), Billed(w, acc.lost)) == Billed(w, acc.log)
  }

  // ---------- sums ----------

  lemma PlusLaws(a: Bill, b: Bill, c: Bill)
    ensures Plus(a, NO_BILL) == a == Plus(NO_BILL, a)
    ensures Plus(a, b) == Plus(b, a)
    ensures Plus(Plus(a, b), c) == Plus(a, Plus(b, c))
  {
  }

  lemma {:induction false} BilledConcat(w: World, a: seq<Call>, b: seq<Call>)
    ensures Billed(w, a + b) == Plus(Billed(w, a), Billed(w, b))
  {
    if a == [] {
      assert a + b == b;
    } else {
      assert (a + b)[1..] == a[1..] + b;
      BilledConcat(w, a[1..], b);
      if a[0].returned {
        PlusLaws(Bill(w.usage(a[0].tick), w.cost(a[0].tick)), Billed(w, a[1..]), Billed(w, b));
      }
    }
  }

  // (a + b) + (c + d) == (a + c) + (b + d)
  lemma Regroup(a: Bill, b: Bill, c: Bill, d: Bill)
    ensures Plus(Plus(a, b), Plus(c, d)) == Plus(Plus(a, c), Plus(b, d))
  {
    hide Plus;
    PlusLaws(a, b, Plus(c, d));
    PlusLaws(b, c, d);
    PlusLaws(c, b, d);
    PlusLaws(a, c, Plus(b, d));
  }

  lemma CompleteConcat(a: seq<Call>, b: seq<Call>, start: nat, middle: nat, tick: nat)
    requires Complete(a, start, middle) && Complete(b, middle, tick)
    ensures Complete(a + b, start, tick)
  {
  }

  // ---------- the shared steps ----------

  lemma PushKeeps(w: World, aim: Aim, start: nat, acc: Acc, ran: Ran)
    requires Collecting(w, aim, start, acc) && Accounted(w, aim, acc.tick, ran) && ran.end.Returned?
    ensures Collecting(w, aim, start, Push(acc, ran))
  {
    hide Plus, Billed, Complete;
    var next := Push(acc, ran);
    CompleteConcat(acc.log, ran.log, start, acc.tick, ran.tick);
    BilledConcat(w, acc.log, ran.log);
    BilledConcat(w, acc.lost, ran.lost);
    assert next.children[..|acc.children|] == acc.children;
    assert Children(next.children) == Plus(Children(acc.children), BillOf(ran.end.outcome));
    Regroup(Children(acc.children), Billed(w, acc.lost), BillOf(ran.end.outcome), Billed(w, ran.lost));
  }

  lemma CaughtKeeps(w: World, aim: Aim, start: nat, acc: Acc, ran: Ran)
    requires Collecting(w, aim, start, acc) && Accounted(w, aim, acc.tick, ran) && ran.end.Threw?
    requires aim.NoLoss? ==> NothingReturned(ran.log)
    ensures Collecting(w, aim, start, Caught(acc, ran))
  {
    hide Plus, Billed, Complete;
    var next := Caught(acc, ran);
    CompleteConcat(acc.log, ran.log, start, acc.tick, ran.tick);
    BilledConcat(w, acc.log, ran.log);
    BilledConcat(w, acc.lost, ran.log);
    assert next.children[..|acc.children|] == acc.children;
    var stand := Failure(ran.end.error, Null, []);
    assert BillOf(stand) == NO_BILL;
    PlusLaws(Children(acc.children), NO_BILL, NO_BILL);
    assert Children(next.children) == Children(acc.children);
    PlusLaws(Children(acc.children), Billed(w, acc.lost), Billed(w, ran.log));
  }

  lemma AbortAccounted(w: World, aim: Aim, start: nat, acc: Acc, ran: Ran)
    requires Collecting(w, aim, start, acc) && Accounted(w, aim, acc.tick, ran) && ran.end.Threw?
    ensures Accounted(w, aim, start, Abort(acc, ran))
  {
    CompleteConcat(acc.log, ran.log, start, acc.tick, ran.tick);
  }

  lemma FinishAccounted(w: World, aim: Aim, start: nat, acc: Acc, outcome: Outcome)
    requires Collecting(w, aim, start, acc) && outcome.children == acc.children && BillOf(outcome) == NO_BILL
    ensures Accounted(w, aim, start, Finish(acc, outcome))
  {
    hide Plus, Billed, Complete;
  }

  lemma StartCollecting(w: World, aim: Aim, tick: nat)
    ensures Collecting(w, aim, tick, Start(tick))
  {
  }

  // ---------- every mode ----------

  lemma {:induction false} ExecAccounted(w: World, aim: Aim, node: Node, input: Value, tick: nat)
    requires Kept(w, aim, node, input)
    ensures Accounted(w, aim, tick, Exec(w, node, input, tick))
    decreases node, 2, 0
  {
    hide Accounted, Collecting, Steady, Atomic;
    StartCollecting(w, aim, tick);
    match node
    case Leaf(name) => LeafAccounted(w, aim, name, input, tick);
    case Sequence(_) => SequenceAccounted(w, aim, tick, node, 0, input, input, Start(tick));
    case Loop(_, _, _) => LoopAccounted(w, aim, tick, node, 1, input, Start(tick));
    case Fallback(_, _) => FallbackAccounted(w, aim, tick, node, 0, input, Start(tick));
    case Conditional(test, onTrue, onFalse) =>
      ExecAccounted(w, aim, if test(input) then onTrue else onFalse, input, tick);
    case Supervisor(_, _, _, _) => SupervisorAccounted(w, aim, tick, node, 1, input, Start(tick));
    case HandoffChain(_, initial, _, _) => HandoffAccounted(w, aim, tick, node, 0, initial, input, Start(tick));
    case TreeSearch(_, _, _, _) => TreeAccounted(w, aim, tick, node, 1, [input], None, Start(tick));
  }

  lemma LeafAccounted(w: World, aim: Aim, name: string, input: Value, tick: nat)
    ensures Accounted(w, aim, tick, ExecLeaf(w, name, input, tick))
  {
  }

  // A node run inside a mode: either the mode goes on with the child's outcome
  // collected, or it raises in turn.
  lemma ChildAccounted(w: World, aim: Aim, start: nat, child: Node, input: Value, acc: Acc)
    requires Kept(w, aim, child, input)
    requires Collecting(w, aim, start, acc)
    ensures var ran := Exec(w, child, input, acc.tick);
            && (ran.end.Threw? ==> Accounted(w, aim, start, Abort(acc, ran)))
            && (ran.end.Threw? && (aim.NoLoss? ==> Atomic(aim.steady, child, input)) ==>
                  Collecting(w, aim, start, Caught(acc, ran)))
            && (ran.end.Returned? ==> Collecting(w, aim, start, Push(acc, ran)))
    decreases child, 3, 0
  {
    hide Collecting, Steady, Atomic, Exec, Abort, Caught, Push;
    var ran := Exec(w, child, input, acc.tick);
    ExecAccounted(w, aim, child, input, acc.tick);
    if ran.end.Threw? {
      AbortAccounted(w, aim, start, acc, ran);
      if aim.NoLoss? ==> Atomic(aim.steady, child, input) {
        if aim.NoLoss? {
          AtomicRaisesFirst(w, aim.steady, child, input, acc.tick);
        }
        CaughtKeeps(w, aim, start, acc, ran);
      }
    } else {
      PushKeeps(w, aim, start, acc, ran);
    }
  }

  lemma {:induction false} SequenceAccounted(
      w: World, aim: Aim, start: nat, node: Node, i: nat, input: Value, current: Value, acc: Acc)
    requires node.Sequence? && i <= |node.nodes|
    requires Kept(w, aim, node, input) && (i == 0 ==> current == input)
    requires Collecting(w, aim, start, acc)
    ensures Accounted(w, aim, start, SequenceFrom(w, node, i, current, acc))
    decreases node, 1, |node.nodes| - i
  {
    hide Accounted, Collecting, Steady, Atomic, Exec, Push, Abort;
    if i == |node.nodes| {
      FinishAccounted(w, aim, start, acc, Success(current, acc.children));
    } else if w.cancelled(acc.tick) {
      FinishAccounted(w, aim, start, acc, Failure(CancelledError, Null, acc.children));
    } else {
      assert i > 0 && aim.NoLoss? ==> AlwaysLossless(aim.steady, node.nodes[i]);
      ChildAccounted(w, aim, start, node.nodes[i], current, acc);
      var ran := Exec(w, node.nodes[i], current, acc.tick);
      if ran.end.Returned? {
        var outcome, next := ran.end.outcome, Push(acc, ran);
        if outcome.success {
          SequenceAccounted(w, aim, start, node, i + 1, input, outcome.output, next);
        } else {
          FinishAccounted(w, aim, start, next,
            Failure(ErrorOr(outcome.error, "node failed in sequence"), outcome.output, next.children));
        }
      }
    }
  }

  lemma {:induction false} LoopAccounted(
      w: World, aim: Aim, start: nat, node: Node, iteration: int, current: Value, acc: Acc)
    requires node.Loop?
    requires Kept(w, aim, node, current)
    requires Collecting(w, aim, start, acc)
    ensures Accounted(w, aim, start, LoopFrom(w, node, iteration, current, acc))
    decreases node, 1, node.maxIterations + 1 - iteration
  {
    hide Accounted, Collecting, Steady, Atomic, Exec, Push, Abort;
    if iteration > node.maxIterations {
      FinishAccounted(w, aim, start, acc, Failure(LoopExhausted(node.maxIterations), current, acc.children));
    } else if w.cancelled(acc.tick) {
      FinishAccounted(w, aim, start, acc, Failure(CancelledError, Null, acc.children));
    } else {
      assert aim.NoLoss? ==> AlwaysLossless(aim.steady, node.body);
      ChildAccounted(w, aim, start, node.body, current, acc);
      var ran := Exec(w, node.body, current, acc.tick);
      if ran.end.Returned? {
        var outcome, next := ran.end.outcome, Push(acc, ran);
        if !outcome.success {
          FinishAccounted(w, aim, start, next,
            Failure(ErrorOr(outcome.error, "loop body failed"), outcome.output, next.children));
        } else if !node.until(outcome.output) {
          FinishAccounted(w, aim, start, next, Success(outcome.output, next.children));
        } else {
          LoopAccounted(w, aim, start, node, iteration + 1, outcome.output, next);
        }
      }
    }
  }

  lemma {:induction false} FallbackAccounted(
      w: World, aim: Aim, start: nat, node: Node, i: nat, input: Value, acc: Acc)
    requires node.Fallback? && i <= |node.fallbacks| + 1
    requires Kept(w, aim, node, input)
    requires Collecting(w, aim, start, acc)
    ensures Accounted(w, aim, start, FallbackFrom(w, node, i, input, acc))
    decreases node, 1, |node.fallbacks| + 1 - i
  {
    hide Accounted, Collecting, Steady, Atomic, Exec, Push, Abort, Caught;
    if i > |node.fallbacks| {
      FinishAccounted(w, aim, start, acc, Failure(LastError(acc.children), Null, acc.children));
    } else {
      var attempt := Attempt(node, i);
      ChildAccounted(w, aim, start, attempt, input, acc);
      var ran := Exec(w, attempt, input, acc.tick);
      if ran.end.Threw? {
        FallbackAccounted(w, aim, start, node, i + 1, input, Caught(acc, ran));
      } else {
        var next := Push(acc, ran);
        if ran.end.outcome.success {
          FinishAccounted(w, aim, start, next, Success(ran.end.outcome.output, next.children));
        } else {
          FallbackAccounted(w, aim, start, node, i + 1, input, next);
        }
      }
    }
  }

  lemma {:induction false} SupervisorAccounted(
      w: World, aim: Aim, start: nat, node: Node, iteration: int, current: Value, acc: Acc)
    requires node.Supervisor?
    requires Kept(w, aim, node, current)
    requires Collecting(w, aim, start, acc)
    ensures Accounted(w, aim, start, SupervisorFrom(w, node, iteration, current, acc))
    decreases node, 1, node.maxRounds + 1 - iteration
  {
    hide Accounted, Collecting, Steady, Atomic, Exec, Push, Abort;
    if iteration > node.maxRounds {
      FinishAccounted(w, aim, start, acc, Failure(LoopExhausted(node.maxRounds), current, acc.children));
    } else if w.cancelled(acc.tick) {
      FinishAccounted(w, aim, start, acc, Failure(CancelledError, Null, acc.children));
    } else {
      assert aim.NoLoss? ==> AlwaysLossless(aim.steady, node.dispatcher);
      ChildAccounted(w, aim, start, node.dispatcher, current, acc);
      var sup := Exec(w, node.dispatcher, current, acc.tick);
      if sup.end.Returned? {
        var plan, next := sup.end.outcome, Push(acc, sup);
        var route := node.route(plan.output);
        if !plan.success {
          FinishAccounted(w, aim, start, next, Failure(ErrorOr(plan.error, "supervisor failed"), Null, next.children));
        } else if route.None? {
          FinishAccounted(w, aim, start, next, Success(plan.output, next.children));
        } else if route.value !in node.workers {
          FinishAccounted(w, aim, start, next, Failure(UnknownKey(route.value), Null, next.children));
        } else {
          WorkerAccounted(w, aim, start, node, iteration, route.value, plan.output, next);
        }
      }
    }
  }

  // The second half of a round, from the worker's run on.
  lemma {:induction false} WorkerAccounted(
      w: World, aim: Aim, start: nat, node: Node, iteration: int, key: string, plan: Value, acc: Acc)
    requires node.Supervisor? && key in node.workers && iteration <= node.maxRounds
    requires Kept(w, aim, node, plan)
    requires Collecting(w, aim, start, acc)
    ensures var work := Exec(w, node.workers[key], plan, acc.tick);
            && (work.end.Threw? ==> Accounted(w, aim, start, Abort(acc, work)))
            && (work.end.Returned? ==>
                  var done, next := work.end.outcome, Push(acc, work);
                  if done.success
                  then Accounted(w, aim, start, SupervisorFrom(w, node, iteration + 1, done.output, next))
                  else Accounted(w, aim, start, FinishFail(next, ErrorOr(done.error, "worker failed"), Null)))
    decreases node, 1, node.maxRounds + 1 - iteration, 0
  {
    hide Accounted, Collecting, Steady, Atomic, Exec, Push, Abort, SupervisorFrom;
    assert aim.NoLoss? ==> AlwaysLossless(aim.steady, node.workers[key]);
    ChildAccounted(w, aim, start, node.workers[key], plan, acc);
    var work := Exec(w, node.workers[key], plan, acc.tick);
    if work.end.Returned? {
      var done, next := work.end.outcome, Push(acc, work);
      if done.success {
        SupervisorAccounted(w, aim, start, node, iteration + 1, done.output, next);
      } else {
        FinishAccounted(w, aim, start, next, Failure(ErrorOr(done.error, "worker failed"), Null, next.children));
      }
    }
  }

  lemma {:induction false} HandoffAccounted(
      w: World, aim: Aim, start: nat, node: Node, hop: int, name: string, current: Value, acc: Acc)
    requires node.HandoffChain?
    requires Kept(w, aim, node, current)
    requires Collecting(w, aim, start, acc)
    ensures Accounted(w, aim, start, HandoffFrom(w, node, hop, name, current, acc))
    decreases node, 1, node.maxHandoffs + 1 - hop
  {
    hide Accounted, Collecting, Steady, Atomic, Exec, Push, Abort;
    if hop > node.maxHandoffs {
      FinishAccounted(w, aim, start, acc, Failure(HandoffLimit(node.maxHandoffs), Null, acc.children));
    } else if name !in node.agents {
      FinishAccounted(w, aim, start, acc, Failure(UnknownKey(name), Null, acc.children));
    } else {
      assert aim.NoLoss? ==> AlwaysLossless(aim.steady, node.agents[name]);
      ChildAccounted(w, aim, start, node.agents[name], current, acc);
      var ran := Exec(w, node.agents[name], current, acc.tick);
      if ran.end.Returned? {
        var outcome, next := ran.end.outcome, Push(acc, ran);
        var target := node.target(outcome.output);
        if !outcome.success {
          FinishAccounted(w, aim, start, next, Failure(ErrorOr(outcome.error, "agent failed"), Null, next.children));
        } else if target.None? {
          FinishAccounted(w, aim, start, next, Success(outcome.output, next.children));
        } else {
          HandoffAccounted(w, aim, start, node, hop + 1, target.value, outcome.output, next);
        }
      }
    }
  }

  ghost predicate PhaseAccounted<T>(w: World, aim: Aim, start: nat, p: Phase<T>) {
    match p
    case Halt(ran, _) => Accounted(w, aim, start, ran)
    case Proceed(_, acc, _) => Collecting(w, aim, start, acc)
  }

  lemma {:induction false} ExpandAccounted(
      w: World, aim: Aim, start: nat, node: Node, beam: seq<Value>, i: nat, candidates: seq<Value>, acc: Acc)
    requires node.TreeSearch? && i <= |beam|
    requires Kept(w, aim, node, Null)
    requires Collecting(w, aim, start, acc)
    ensures PhaseAccounted(w, aim, start, ExpandFrom(w, node, beam, i, candidates, acc))
    decreases node, 0, |beam| - i
  {
    hide Accounted, Collecting, Steady, Atomic, Exec, Push, Abort;
    if i < |beam| {
      assert aim.NoLoss? ==> AlwaysLossless(aim.steady, node.expander);
      ChildAccounted(w, aim, start, node.expander, beam[i], acc);
      var ran := Exec(w, node.expander, beam[i], acc.tick);
      if ran.end.Returned? {
        var outcome, next := ran.end.outcome, Push(acc, ran);
        if outcome.success {
          ExpandAccounted(w, aim, start, node, beam, i + 1, candidates + Collected(outcome.output), next);
        } else {
          FinishAccounted(w, aim, start, next, Failure(ErrorOr(outcome.error, "expander failed"), Null, next.children));
        }
      }
    }
  }

  lemma {:induction false} ScoreAccounted(
      w: World, aim: Aim, start: nat, node: Node, candidates: seq<Value>, i: nat, scored: seq<Scored<Value>>, acc: Acc)
    requires node.TreeSearch? && i <= |candidates|
    requires Kept(w, aim, node, Null)
    requires Collecting(w, aim, start, acc)
    ensures PhaseAccounted(w, aim, start, ScoreFrom(w, node, candidates, i, scored, acc))
    decreases node, 0, |candidates| - i
  {
    hide Accounted, Collecting, Steady, Atomic, Exec, Push, Abort;
    if i < |candidates| {
      assert aim.NoLoss? ==> AlwaysLossless(aim.steady, node.evaluator);
      ChildAccounted(w, aim, start, node.evaluator, candidates[i], acc);
      var ran := Exec(w, node.evaluator, candidates[i], acc.tick);
      if ran.end.Returned? {
        var outcome, next := ran.end.outcome, Push(acc, ran);
        if !outcome.success {
          FinishAccounted(w, aim, start, next,
            Failure(ErrorOr(outcome.error, "evaluator failed"), Null, next.children));
        } else if w.asFloat(outcome.output).None? {
          FinishAccounted(w, aim, start, next,
            Failure(ExecutionFailed("evaluator did not return a number"), Null, next.children));
        } else {
          var entry := Scored(w.asFloat(outcome.output).value, candidates[i]);
          ScoreAccounted(w, aim, start, node, candidates, i + 1, scored + [entry], next);
        }
      }
    }
  }

  lemma ConcludeAccounted(w: World, aim: Aim, start: nat, best: Option<Scored<Value>>, acc: Acc)
    requires Collecting(w, aim, start, acc)
    ensures Accounted(w, aim, start, Conclude(best, acc))
  {
    hide Accounted, Collecting;
    if best.None? {
      FinishAccounted(w, aim, start, acc,
        Failure(ExecutionFailed("tree search produced no candidates"), Null, acc.children));
    } else {
      FinishAccounted(w, aim, start, acc,
        Success(best.value.item, acc.children).(score := Some(best.value.score)));
    }
  }

  lemma {:induction false} TreeAccounted(
      w: World, aim: Aim, start: nat, node: Node, depth: int, beam: seq<Value>, best: Option<Scored<Value>>, acc: Acc)
    requires node.TreeSearch?
    requires Kept(w, aim, node, Null)
    requires Collecting(w, aim, start, acc)
    ensures Accounted(w, aim, start, TreeFrom(w, node, depth, beam, best, acc).ran)
    decreases node, 1, node.maxDepth + 1 - depth
  {
    hide Accounted, Steady, Atomic, Collecting, ExpandFrom, ScoreFrom, Rank, Conclude, Complete, Billed;
    if depth > node.maxDepth {
      ConcludeAccounted(w, aim, start, best, acc);
    } else {
      ExpandAccounted(w, aim, start, node, beam, 0, [], acc);
      var expanded := ExpandFrom(w, node, beam, 0, [], acc);
      if expanded.Proceed? {
        var candidates := expanded.items;
        if candidates == [] {
          ConcludeAccounted(w, aim, start, best, expanded.acc);
        } else {
          ScoreAccounted(w, aim, start, node, candidates, 0, [], expanded.acc);
          var scored := ScoreFrom(w, node, candidates, 0, [], expanded.acc);
          if scored.Proceed? {
            var top := Slice(Rank(scored.items), node.beamWidth);
            if best.None? && top == [] {
              CrashAccounted(w, aim, start, scored.acc);
            } else {
              TreeAccounted(w, aim, start, node, depth + 1, Items(top), Better(best, top), scored.acc);
            }
          }
        }
      }
    }
  }

  lemma CrashAccounted(w: World, aim: Aim, start: nat, acc: Acc)
    requires Collecting(w, aim, start, acc)
    ensures Accounted(w, aim, start, Crash(acc))
  {
  }

  // ---------- what a caller gets ----------

  // The exact balance of any run: the root's bill plus the bill of what was lost is
  // the bill of every leaf execution made.
  lemma RunBalances(w: World, node: Node, input: Value, tick: nat)
    ensures var ran := Exec(w, node, input, tick);
            && Complete(ran.log, tick, ran.tick)
            && (ran.end.Returned? ==> Plus(BillOf(ran.end.outcome), Billed(w, ran.lost)) == Billed(w, ran.log))
  {
    ExecAccounted(w, Balance, node, input, tick);
  }

  // A lossless tree whose steady leaves are steady conserves: whichever outcome it
  // returns, the bill is complete.
  lemma LosslessTreesConserve(w: World, steady: Names, node: Node, input: Value, tick: nat)
    requires Steady(w, steady) && Lossless(steady, node, input)
    ensures var ran := Exec(w, node, input, tick);
            ran.end.Returned? ==> BillOf(ran.end.outcome) == Billed(w, ran.log)
  {
    hide Steady, Lossless, Exec;
    var ran := Exec(w, node, input, tick);
    ExecAccounted(w, NoLoss(steady), node, input, tick);
    if ran.end.Returned? {
      UnreturnedBill(w, ran.lost);
      PlusLaws(BillOf(ran.end.outcome), NO_BILL, NO_BILL);
    }
  }

  lemma {:induction false} UnreturnedBill(w: World, lost: seq<Call>)
    requires NothingReturned(lost)
    ensures Billed(w, lost) == NO_BILL
  {
    if lost != [] {
      UnreturnedBill(w, lost[1..]);
    }
  }

  ghost predicate FallbackFree(node: Node)
    decreases node
  {
    match node
    case Leaf(_) => true
    case Sequence(nodes) => forall n :: n in nodes ==> FallbackFree(n)
    case Loop(body, _, _) => FallbackFree(body)
    case Fallback(_, _) => false
    case Conditional(_, onTrue, onFalse) => FallbackFree(onTrue) && FallbackFree(onFalse)
    case Supervisor(dispatcher, workers, _, _) =>
      FallbackFree(dispatcher) && forall k :: k in workers ==> FallbackFree(workers[k])
    case HandoffChain(agents, _, _, _) => forall k :: k in agents ==> FallbackFree(agents[k])
    case TreeSearch(expander, evaluator, _, _) => FallbackFree(expander) && FallbackFree(evaluator)
  }

  lemma {:induction false} FallbackFreeIsLossless(steady: Names, node: Node)
    requires FallbackFree(node)
    ensures AlwaysLossless(steady, node)
    decreases node
  {
    match node {
      case Leaf(_) =>
      case Sequence(nodes) =>
        forall i | 0 <= i < |nodes| ensures AlwaysLossless(steady, nodes[i]) {
          FallbackFreeIsLossless(steady, nodes[i]);
        }
        assert nodes != [] ==> AlwaysLossless(steady, nodes[0]);
      case Loop(body, _, _) => FallbackFreeIsLossless(steady, body);
      case Conditional(_, onTrue, onFalse) =>
        FallbackFreeIsLossless(steady, onTrue);
        FallbackFreeIsLossless(steady, onFalse);
      case Supervisor(dispatcher, workers, _, _) =>
        FallbackFreeIsLossless(steady, dispatcher);
        forall k | k in workers ensures AlwaysLossless(steady, workers[k]) {
          FallbackFreeIsLossless(steady, workers[k]);
        }
      case HandoffChain(agents, _, _, _) =>
        forall k | k in agents ensures AlwaysLossless(steady, agents[k]) {
          FallbackFreeIsLossless(steady, agents[k]);
        }
      case TreeSearch(expander, evaluator, _, _) =>
        FallbackFreeIsLossless(steady, expander);
        FallbackFreeIsLossless(steady, evaluator);
    }
    assert forall v: Value :: Lossless(steady, node, v);
  }

  // A tree without Fallback conserves in every world, whatever its leaves raise and
  // whatever its beam widths.
  lemma FallbackFreeTreesConserve(w: World, node: Node, input: Value, tick: nat)
    requires FallbackFree(node)
    ensures var ran := Exec(w, node, input, tick);
            ran.end.Returned? ==> BillOf(ran.end.outcome) == Billed(w, ran.log)
  {
    FallbackFreeIsLossless(iset{}, node);
    LosslessTreesConserve(w, iset{}, node, input, tick);
  }

  ghost const EVERY_NAME: Names := iset name: string | true

  lemma {:induction false} SteadyOn(node: Node, input: Value)
    requires BeamsPositive(node)
    ensures Quiet(EVERY_NAME, node, input) && Atomic(EVERY_NAME, node, input) && Lossless(EVERY_NAME, node, input)
    decreases node, 0
  {
    hide Atomic;
    match node {
      case Leaf(_) =>
      case Sequence(nodes) =>
        forall i | 0 <= i < |nodes| ensures AlwaysQuiet(EVERY_NAME, nodes[i]) && AlwaysLossless(EVERY_NAME, nodes[i]) {
          SteadyTrees(nodes[i]);
        }
        if nodes != [] { SteadyOn(nodes[0], input); }
      case Loop(body, _, _) => SteadyTrees(body);
      case Fallback(primary, fallbacks) =>
        SteadyOn(primary, input);
        forall n | n in fallbacks ensures Atomic(EVERY_NAME, n, input) && Lossless(EVERY_NAME, n, input) {
          SteadyOn(n, input);
        }
      case Conditional(test, onTrue, onFalse) => SteadyOn(if test(input) then onTrue else onFalse, input);
      case Supervisor(dispatcher, workers, _, _) =>
        SteadyTrees(dispatcher);
        forall k | k in workers
          ensures AlwaysQuiet(EVERY_NAME, workers[k]) && AlwaysLossless(EVERY_NAME, workers[k])
        {
          SteadyTrees(workers[k]);
        }
      case HandoffChain(agents, _, _, _) =>
        forall k | k in agents ensures AlwaysQuiet(EVERY_NAME, agents[k]) && AlwaysLossless(EVERY_NAME, agents[k]) {
          SteadyTrees(agents[k]);
        }
      case TreeSearch(expander, evaluator, _, _) =>
        SteadyTrees(expander);
        SteadyTrees(evaluator);
    }
    QuietIsAtomic(EVERY_NAME, node, input);
  }

  lemma {:induction false} SteadyTrees(node: Node)
    requires BeamsPositive(node)
    ensures AlwaysQuiet(EVERY_NAME, node) && AlwaysLossless(EVERY_NAME, node)
    decreases node, 1
  {
    forall v: Value ensures Quiet(EVERY_NAME, node, v) && Lossless(EVERY_NAME, node, v) {
      SteadyOn(node, v);
    }
  }

  // With leaves that return their failures instead of raising them, and beams of at
  // least one, a tree always returns an outcome and that outcome's bill is complete.
  lemma AdaptedTreesConserve(w: World, node: Node, input: Value, tick: nat)
    requires LeavesNeverRaise(w) && BeamsPositive(node)
    ensures var ran := Exec(w, node, input, tick);
            && ran.end.Returned?
            && BillOf(ran.end.outcome) == Billed(w, ran.log)
  {
    hide Quiet, Atomic, Lossless, Exec;
    SteadyOn(node, input);
    QuietReturns(w, EVERY_NAME, node, input, tick);
    LosslessTreesConserve(w, EVERY_NAME, node, input, tick);
  }

  ghost predicate AllReport(w: World) {
    forall t: nat :: w.usage(t).input.Some? && w.usage(t).input.value > 0
  }

  // When every leaf reports a positive input count, the bill is complete exactly when
  // no Fallback swallowed an exception raised after a leaf had returned.
  lemma ConservedExactlyWhenNothingLost(w: World, node: Node, input: Value, tick: nat)
    requires AllReport(w)
    requires Exec(w, node, input, tick).end.Returned?
    ensures var ran := Exec(w, node, input, tick);
            BillOf(ran.end.outcome) == Billed(w, ran.log) <==> NothingReturned(ran.lost)
  {
    hide Exec;
    var ran := Exec(w, node, input, tick);
    ExecAccounted(w, Balance, node, input, tick);
    LostBill(w, ran.lost);
    PlusLaws(BillOf(ran.end.outcome), NO_BILL, NO_BILL);
  }

  lemma {:induction false} LostBill(w: World, lost: seq<Call>)
    requires AllReport(w)
    ensures NothingReturned(lost) ==> Billed(w, lost) == NO_BILL
    ensures !NothingReturned(lost) ==> OrZero(Billed(w, lost).tokens.input) > 0
    ensures OrZero(Billed(w, lost).tokens.input) >= 0
  {
    if lost != [] {
      LostBill(w, lost[1..]);
      assert lost == [lost[0]] + lost[1..];
    }
  }

  // The leaf "broken" raises, every other leaf echoes its input and reports 7 tokens.
  function BrokenWorld(): World {
    World(
      (name: string, tick: nat, input: Value) =>
        if name == "broken" then Raises(LeafError("boom")) else Answers(input, true, None),
      (tick: nat) => TokenUsage(Some(7), None, None, None),
      (tick: nat) => None,
      (tick: nat) => false,
      (v: Value) => None)
  }

  // Conservation is not unconditional: here the first attempt's first leaf returns and
  // is paid for, its second leaf raises, and the second attempt succeeds.
  lemma FallbackDropsPaidWork()
    ensures var node := Fallback(Sequence([Leaf("paid"), Leaf("broken")]), [Leaf("spare")]);
            var ran := Exec(BrokenWorld(), node, Null, 0);
            && ran.end.Returned? && ran.end.outcome.success
            && BillOf(ran.end.outcome).tokens.input == Some(7)
            && Billed(BrokenWorld(), ran.log).tokens.input == Some(14)
  {
    var w := BrokenWorld();
    var pair := Sequence([Leaf("paid"), Leaf("broken")]);
    var node := Fallback(pair, [Leaf("spare")]);
    var acc := Push(Start(0), Exec(w, Leaf("paid"), Null, 0));
    var broken := Exec(w, Leaf("broken"), Null, 1);
    assert SequenceFrom(w, pair, 1, Null, acc) == Abort(acc, broken);
    assert Exec(w, pair, Null, 0) == Abort(acc, broken);
    var caught := Caught(Start(0), Abort(acc, broken));
    var spare := Exec(w, Leaf("spare"), Null, 2);
    assert FallbackFrom(w, node, 1, Null, caught) == FinishOk(Push(caught, spare), Null);
    var ran := Exec(w, node, Null, 0);
    assert ran == FinishOk(Push(caught, spare), Null);
    var kids := Push(caught, spare).children;
    assert kids == [caught.children[0], spare.end.outcome];
    FoldedPair(NO_BILL, kids[0], kids[1]);
    assert BillOf(Success(Null, kids)) == NO_BILL == BillOf(kids[0]);
    assert BillOf(ran.end.outcome) == Folded(NO_BILL, kids);
    assert BillOf(kids[1]).tokens.input == Some(7);
    assert ran.log == [Call("paid", 0, Null, true), Call("broken", 1, Null, false), Call("spare", 2, Null, true)];
    assert ran.log[1..][1..] == [Call("spare", 2, Null, true)];
    assert ran.log[1..][1..][1..] == [];
  }

  lemma FoldedPair(start: Bill, a: Outcome, b: Outcome)
    ensures Folded(start, [a, b]) == Plus(Plus(start, BillOf(a)), BillOf(b))
  {
    var both, one := [a, b], [a];
    assert both[..|both| - 1] == one && one[..|one| - 1] == [];
    assert Folded(start, one) == Plus(Folded(start, []), BillOf(a));
    assert Folded(start, both) == Plus(Folded(start, one), BillOf(b));
  }
}
