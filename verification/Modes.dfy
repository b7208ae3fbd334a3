/** The runtime modes (`runtime/modes`) as an interpreter of mode trees.

    A leaf is an adapted agent or callable. What leaves answer, what they report as
    usage and when cancellation is requested are oracles, read at the number of leaf
    executions made so far. `Exec` is the meaning of a tree; `RunNode` and the
    methods below it are the modes' own loops, proved to compute that meaning. */
module Modes {
  import opened JsonValue
  import opened Ranking
  import opened Usage
  import opened Wrappers

  type Value = Json

  datatype Error =
    | CancelledError
    | ExecutionFailed(reason: string)
    | LoopExhausted(cap: int)
    | HandoffLimit(cap: int)
    | UnknownKey(key: string)
    | IndexError
    | LeafError(reason: string)

  // The `metadata` the source attaches is kept only for the tree search's score.
  datatype Outcome = Outcome(
    output: Value,
    success: bool,
    error: Option<Error>,
    tokens: TokenUsage,
    cost: Option<real>,
    children: seq<Outcome>,
    score: Option<real>)

  datatype LeafAnswer =
    | Answers(output: Value, success: bool, error: Option<Error>)
    | Raises(exception: Error)

  datatype World = World(
    leaf: (string, nat, Value) -> LeafAnswer,
    usage: nat -> TokenUsage,
    cost: nat -> Option<real>,
    cancelled: nat -> bool,
    asFloat: Value -> Option<real>)

  datatype Node =
    | Leaf(name: string)
    | Sequence(nodes: seq<Node>)
    | Loop(body: Node, until: Value -> bool, maxIterations: int)
    | Fallback(primary: Node, fallbacks: seq<Node>)
    | Conditional(test: Value -> bool, onTrue: Node, onFalse: Node)
    | Supervisor(dispatcher: Node, workers: map<string, Node>, maxRounds: int, route: Value -> Option<string>)
    | HandoffChain(agents: map<string, Node>, initial: string, maxHandoffs: int, target: Value -> Option<string>)
    | TreeSearch(expander: Node, evaluator: Node, maxDepth: int, beamWidth: int)

  datatype End = Returned(outcome: Outcome) | Threw(error: Error)

  // One leaf execution; `returned` tells whether it came back with an outcome.
  datatype Call = Call(name: string, tick: nat, input: Value, returned: bool)

  // What running a node comes to: how it ended, how many leaf executions the whole
  // run has made by then, the ones this node made, and those among them whose
  // outcome no longer hangs under any outcome.
  datatype Ran = Ran(end: End, tick: nat, log: seq<Call>, lost: seq<Call>)

  // A mode in progress: the children it has collected, and the bookkeeping so far.
  datatype Acc = Acc(children: seq<Outcome>, tick: nat, log: seq<Call>, lost: seq<Call>)

  // ---------- outcomes (`runtime/outcome.py`) ----------

  datatype Bill = Bill(tokens: TokenUsage, cost: Option<real>)

  const NO_BILL := Bill(NO_USAGE, None)

  function AddCost(a: Option<real>, b: Option<real>): Option<real> {
    if b.None? then a else Some((if a.None? then 0.0 else a.value) + b.value)
  }

  function Plus(a: Bill, b: Bill): Bill {
    Bill(MergeTokens(a.tokens, b.tokens), AddCost(a.cost, b.cost))
  }

  function BillOf(o: Outcome): Bill {
    Bill(o.tokens, o.cost)
  }

  function Folded(start: Bill, children: seq<Outcome>): Bill {
    if children == [] then start
    else Plus(Folded(start, children[..|children| - 1]), BillOf(children[|children| - 1]))
  }

  function Merged(o: Outcome): Outcome {
    var bill := Folded(BillOf(o), o.children);
    o.(tokens := bill.tokens, cost := bill.cost)
  }

  method MergeChildren(o: Outcome) returns (merged: Outcome)
    ensures merged == Merged(o)
  {
    if o.children == [] {
      return o;
    }
    var tokens, cost := o.tokens, o.cost;
    for i := 0 to |o.children|
      invariant Bill(tokens, cost) == Folded(BillOf(o), o.children[..i])
    {
      var child := o.children[i];
      assert o.children[..i + 1][..i] == o.children[..i];
      tokens := MergeTokens(tokens, child.tokens);
      if child.cost.Some? {
        cost := Some((if cost.None? then 0.0 else cost.value) + child.cost.value);
      }
    }
    assert o.children[..|o.children|] == o.children;
    merged := o.(tokens := tokens, cost := cost);
  }

  function Success(output: Value, children: seq<Outcome>): Outcome {
    Outcome(output, true, None, NO_USAGE, None, children, None)
  }

  function Failure(error: Error, output: Value, children: seq<Outcome>): Outcome {
    Outcome(output, false, Some(error), NO_USAGE, None, children, None)
  }

  function ErrorOr(error: Option<Error>, reason: string): Error {
    if error.Some? then error.value else ExecutionFailed(reason)
  }

  // ---------- steps every mode shares ----------

  function Start(tick: nat): Acc {
    Acc([], tick, [], [])
  }

  // The child came back: its outcome is appended.
  function Push(acc: Acc, ran: Ran): Acc
    requires ran.end.Returned?
  {
    Acc(acc.children + [ran.end.outcome], ran.tick, acc.log + ran.log, acc.lost + ran.lost)
  }

  // The child raised and the mode does not catch: the collected children go with it.
  function Abort(acc: Acc, ran: Ran): Ran {
    Ran(ran.end, ran.tick, acc.log + ran.log, acc.log + ran.log)
  }

  // The child raised and the mode caught it: a bare failed outcome stands in for it.
  function Caught(acc: Acc, ran: Ran): Acc
    requires ran.end.Threw?
  {
    Acc(acc.children + [Failure(ran.end.error, Null, [])], ran.tick, acc.log + ran.log, acc.lost + ran.lost)
  }

  function Finish(acc: Acc, outcome: Outcome): Ran {
    Ran(Returned(Merged(outcome)), acc.tick, acc.log, acc.lost)
  }

  function FinishOk(acc: Acc, output: Value): Ran {
    Finish(acc, Success(output, acc.children))
  }

  function FinishFail(acc: Acc, error: Error, output: Value): Ran {
    Finish(acc, Failure(error, output, acc.children))
  }

  // ---------- the meaning of a mode tree ----------

  function Exec(w: World, node: Node, input: Value, tick: nat): Ran
    decreases node, 2, 0
  {
    match node
    case Leaf(name) => ExecLeaf(w, name, input, tick)
    case Sequence(_) => SequenceFrom(w, node, 0, input, Start(tick))
    case Loop(_, _, _) => LoopFrom(w, node, 1, input, Start(tick))
    case Fallback(_, _) => FallbackFrom(w, node, 0, input, Start(tick))
    case Conditional(test, onTrue, onFalse) => Exec(w, if test(input) then onTrue else onFalse, input, tick)
    case Supervisor(_, _, _, _) => SupervisorFrom(w, node, 1, input, Start(tick))
    case HandoffChain(_, initial, _, _) => HandoffFrom(w, node, 0, initial, input, Start(tick))
    case TreeSearch(_, _, _, _) => TreeFrom(w, node, 1, [input], None, Start(tick)).ran
  }

  function ExecLeaf(w: World, name: string, input: Value, tick: nat): Ran {
    match w.leaf(name, tick, input)
    case Raises(error) =>
      var log := [Call(name, tick, input, false)];
      Ran(Threw(error), tick + 1, log, log)
    case Answers(output, success, error) =>
      var outcome := Outcome(output, success, error, w.usage(tick), w.cost(tick), [], None);
      Ran(Returned(outcome), tick + 1, [Call(name, tick, input, true)], [])
  }

  function SequenceFrom(w: World, node: Node, i: nat, current: Value, acc: Acc): Ran
    requires node.Sequence? && i <= |node.nodes|
    decreases node, 1, |node.nodes| - i
  {
    if i == |node.nodes| then FinishOk(acc, current)
    else if w.cancelled(acc.tick) then FinishFail(acc, CancelledError, Null)
    else
      var ran := Exec(w, node.nodes[i], current, acc.tick);
      if ran.end.Threw? then Abort(acc, ran)
      else
        var outcome := ran.end.outcome;
        if !outcome.success
        then FinishFail(Push(acc, ran), ErrorOr(outcome.error, "node failed in sequence"), outcome.output)
        else SequenceFrom(w, node, i + 1, outcome.output, Push(acc, ran))
  }

  function LoopFrom(w: World, node: Node, iteration: int, current: Value, acc: Acc): Ran
    requires node.Loop?
    decreases node, 1, node.maxIterations + 1 - iteration
  {
    if iteration > node.maxIterations then FinishFail(acc, LoopExhausted(node.maxIterations), current)
    else if w.cancelled(acc.tick) then FinishFail(acc, CancelledError, Null)
    else
      var ran := Exec(w, node.body, current, acc.tick);
      if ran.end.Threw? then Abort(acc, ran)
      else
        var outcome := ran.end.outcome;
        if !outcome.success
        then FinishFail(Push(acc, ran), ErrorOr(outcome.error, "loop body failed"), outcome.output)
        else if !node.until(outcome.output) then FinishOk(Push(acc, ran), outcome.output)
        else LoopFrom(w, node, iteration + 1, outcome.output, Push(acc, ran))
  }

  function Attempt(node: Node, i: nat): Node
    requires node.Fallback? && i <= |node.fallbacks|
  {
    if i == 0 then node.primary else node.fallbacks[i - 1]
  }

  function LastError(attempts: seq<Outcome>): Error {
    if attempts == [] then ExecutionFailed("all fallbacks failed")
    else ErrorOr(attempts[|attempts| - 1].error, "all fallbacks failed")
  }

  function FallbackFrom(w: World, node: Node, i: nat, input: Value, acc: Acc): Ran
    requires node.Fallback? && i <= |node.fallbacks| + 1
    decreases node, 1, |node.fallbacks| + 1 - i
  {
    if i > |node.fallbacks| then FinishFail(acc, LastError(acc.children), Null)
    else
      var ran := Exec(w, Attempt(node, i), input, acc.tick);
      if ran.end.Threw? then FallbackFrom(w, node, i + 1, input, Caught(acc, ran))
      else if ran.end.outcome.success then FinishOk(Push(acc, ran), ran.end.outcome.output)
      else FallbackFrom(w, node, i + 1, input, Push(acc, ran))
  }

  function SupervisorFrom(w: World, node: Node, iteration: int, current: Value, acc: Acc): Ran
    requires node.Supervisor?
    decreases node, 1, node.maxRounds + 1 - iteration
  {
    if iteration > node.maxRounds then FinishFail(acc, LoopExhausted(node.maxRounds), current)
    else if w.cancelled(acc.tick) then FinishFail(acc, CancelledError, Null)
    else
      var sup := Exec(w, node.dispatcher, current, acc.tick);
      if sup.end.Threw? then Abort(acc, sup)
      else
        var plan := sup.end.outcome;
        var acc1 := Push(acc, sup);
        if !plan.success then FinishFail(acc1, ErrorOr(plan.error, "supervisor failed"), Null)
        else
          var route := node.route(plan.output);
          if route.None? then FinishOk(acc1, plan.output)
          else if route.value !in node.workers then FinishFail(acc1, UnknownKey(route.value), Null)
          else
            var work := Exec(w, node.workers[route.value], plan.output, acc1.tick);
            if work.end.Threw? then Abort(acc1, work)
            else
              var done := work.end.outcome;
              if !done.success then FinishFail(Push(acc1, work), ErrorOr(done.error, "worker failed"), Null)
              else SupervisorFrom(w, node, iteration + 1, done.output, Push(acc1, work))
  }

  function HandoffFrom(w: World, node: Node, hop: int, name: string, current: Value, acc: Acc): Ran
    requires node.HandoffChain?
    decreases node, 1, node.maxHandoffs + 1 - hop
  {
    if hop > node.maxHandoffs then FinishFail(acc, HandoffLimit(node.maxHandoffs), Null)
    else if name !in node.agents then FinishFail(acc, UnknownKey(name), Null)
    else
      var ran := Exec(w, node.agents[name], current, acc.tick);
      if ran.end.Threw? then Abort(acc, ran)
      else
        var outcome := ran.end.outcome;
        if !outcome.success then FinishFail(Push(acc, ran), ErrorOr(outcome.error, "agent failed"), Null)
        else
          var target := node.target(outcome.output);
          if target.None? then FinishOk(Push(acc, ran), outcome.output)
          else HandoffFrom(w, node, hop + 1, target.value, outcome.output, Push(acc, ran))
  }

  // ---------- beam search ----------

  // `_expand_beam` and `_score_candidates` either go on with a list or end the run;
  // `calls` counts the nodes they ran.
  datatype Phase<+T> = Proceed(items: seq<T>, acc: Acc, calls: nat) | Halt(ran: Ran, calls: nat)

  // A finished search, with every scored candidate in the order of scoring and the
  // number of evaluator runs.
  datatype Searched = Searched(ran: Ran, seen: seq<Scored<Value>>, evaluations: nat)

  function Collected(output: Value): seq<Value> {
    if output.Array? then output.items else [output]
  }

  // Python's `scored[:width]`, for a negative width too.
  function Slice<T>(s: seq<T>, width: int): seq<T> {
    if width >= |s| then s
    else if width >= 0 then s[..width]
    else if |s| + width >= 0 then s[..|s| + width]
    else []
  }

  function Items(s: seq<Scored<Value>>): (r: seq<Value>)
    ensures |r| == |s| && forall i :: 0 <= i < |s| ==> r[i] == s[i].item
  {
    if s == [] then [] else [s[0].item] + Items(s[1..])
  }

  function ExpandFrom(w: World, node: Node, beam: seq<Value>, i: nat, candidates: seq<Value>, acc: Acc): Phase<Value>
    requires node.TreeSearch? && i <= |beam|
    decreases node, 0, |beam| - i
  {
    if i == |beam| then Proceed(candidates, acc, i)
    else
      var ran := Exec(w, node.expander, beam[i], acc.tick);
      if ran.end.Threw? then Halt(Abort(acc, ran), i + 1)
      else
        var outcome := ran.end.outcome;
        if !outcome.success
        then Halt(FinishFail(Push(acc, ran), ErrorOr(outcome.error, "expander failed"), Null), i + 1)
        else ExpandFrom(w, node, beam, i + 1, candidates + Collected(outcome.output), Push(acc, ran))
  }

  function ScoreFrom(w: World, node: Node, candidates: seq<Value>, i: nat, scored: seq<Scored<Value>>, acc: Acc)
    : Phase<Scored<Value>>
    requires node.TreeSearch? && i <= |candidates|
    decreases node, 0, |candidates| - i
  {
    if i == |candidates| then Proceed(scored, acc, i)
    else
      var ran := Exec(w, node.evaluator, candidates[i], acc.tick);
      if ran.end.Threw? then Halt(Abort(acc, ran), i + 1)
      else
        var outcome := ran.end.outcome;
        if !outcome.success
        then Halt(FinishFail(Push(acc, ran), ErrorOr(outcome.error, "evaluator failed"), Null), i + 1)
        else if w.asFloat(outcome.output).None?
        then Halt(FinishFail(Push(acc, ran), ExecutionFailed("evaluator did not return a number"), Null), i + 1)
        else
          var entry := Scored(w.asFloat(outcome.output).value, candidates[i]);
          ScoreFrom(w, node, candidates, i + 1, scored + [entry], Push(acc, ran))
  }

  function Conclude(best: Option<Scored<Value>>, acc: Acc): Ran {
    if best.None? then FinishFail(acc, ExecutionFailed("tree search produced no candidates"), Null)
    else Finish(acc, Success(best.value.item, acc.children).(score := Some(best.value.score)))
  }

  function Better(best: Option<Scored<Value>>, top: seq<Scored<Value>>): Option<Scored<Value>>
    requires best.None? ==> top != []
  {
    if best.None? || (top != [] && top[0].score > best.value.score) then Some(top[0]) else best
  }

  function TreeFrom(w: World, node: Node, depth: int, beam: seq<Value>, best: Option<Scored<Value>>, acc: Acc): Searched
    requires node.TreeSearch?
    decreases node, 1, node.maxDepth + 1 - depth
  {
    if depth > node.maxDepth then Searched(Conclude(best, acc), [], 0)
    else
      match ExpandFrom(w, node, beam, 0, [], acc)
      case Halt(ran, _) => Searched(ran, [], 0)
      case Proceed(candidates, acc1, _) =>
        if candidates == [] then Searched(Conclude(best, acc1), [], 0)
        else
          match ScoreFrom(w, node, candidates, 0, [], acc1)
          case Halt(ran, calls) => Searched(ran, [], calls)
          case Proceed(scored, acc2, calls) =>
            var top := Slice(Rank(scored), node.beamWidth);
            if best.None? && top == [] then Searched(Crash(acc2), scored, calls)
            else
              var rest := TreeFrom(w, node, depth + 1, Items(top), Better(best, top), acc2);
              Searched(rest.ran, scored + rest.seen, calls + rest.evaluations)
  }

  // `top[0]` on an empty list.
  function Crash(acc: Acc): Ran {
    Ran(Threw(IndexError), acc.tick, acc.log, acc.log)
  }

  // ---------- the modes' loops ----------

  method RunNode(w: World, node: Node, input: Value, tick: nat) returns (r: Ran)
    ensures r == Exec(w, node, input, tick)
    decreases node, 2
  {
    match node
    case Leaf(name) => r := ExecLeaf(w, name, input, tick);
    case Sequence(_) => r := RunSequence(w, node, input, tick);
    case Loop(_, _, _) => r := RunLoop(w, node, input, tick);
    case Fallback(_, _) => r := RunFallback(w, node, input, tick);
    case Conditional(test, onTrue, onFalse) =>
      if test(input) {
        r := RunNode(w, onTrue, input, tick);
      } else {
        r := RunNode(w, onFalse, input, tick);
      }
    case Supervisor(_, _, _, _) => r := RunSupervisor(w, node, input, tick);
    case HandoffChain(_, _, _, _) => r := RunHandoffChain(w, node, input, tick);
    case TreeSearch(_, _, _, _) => r := RunTreeSearch(w, node, input, tick);
  }

  method FinishRun(acc: Acc, outcome: Outcome) returns (r: Ran)
    ensures r == Finish(acc, outcome)
  {
    var merged := MergeChildren(outcome);
    r := Ran(Returned(merged), acc.tick, acc.log, acc.lost);
  }

  method RunSequence(w: World, node: Node, input: Value, tick: nat) returns (r: Ran)
    requires node.Sequence?
    ensures r == SequenceFrom(w, node, 0, input, Start(tick))
    decreases node, 1
  {
    var acc, current := Start(tick), input;
    for i := 0 to |node.nodes|
      invariant SequenceFrom(w, node, 0, input, Start(tick)) == SequenceFrom(w, node, i, current, acc)
    {
      if w.cancelled(acc.tick) {
        r := FinishRun(acc, Failure(CancelledError, Null, acc.children));
        return;
      }
      var ran := RunNode(w, node.nodes[i], current, acc.tick);
      if ran.end.Threw? {
        return Abort(acc, ran);
      }
      acc := Push(acc, ran);
      var outcome := ran.end.outcome;
      if !outcome.success {
        r := FinishRun(acc, Failure(ErrorOr(outcome.error, "node failed in sequence"), outcome.output, acc.children));
        return;
      }
      current := outcome.output;
    }
    r := FinishRun(acc, Success(current, acc.children));
  }

  method RunLoop(w: World, node: Node, input: Value, tick: nat) returns (r: Ran)
    requires node.Loop?
    ensures r == LoopFrom(w, node, 1, input, Start(tick))
    decreases node, 1
  {
    var acc, current, iteration := Start(tick), input, 1;
    while iteration <= node.maxIterations
      invariant LoopFrom(w, node, 1, input, Start(tick)) == LoopFrom(w, node, iteration, current, acc)
    {
      if w.cancelled(acc.tick) {
        r := FinishRun(acc, Failure(CancelledError, Null, acc.children));
        return;
      }
      var ran := RunNode(w, node.body, current, acc.tick);
      if ran.end.Threw? {
        return Abort(acc, ran);
      }
      acc := Push(acc, ran);
      var outcome := ran.end.outcome;
      if !outcome.success {
        r := FinishRun(acc, Failure(ErrorOr(outcome.error, "loop body failed"), outcome.output, acc.children));
        return;
      }
      current := outcome.output;
      if !node.until(current) {
        r := FinishRun(acc, Success(current, acc.children));
        return;
      }
      iteration := iteration + 1;
    }
    r := FinishRun(acc, Failure(LoopExhausted(node.maxIterations), current, acc.children));
  }

  method RunFallback(w: World, node: Node, input: Value, tick: nat) returns (r: Ran)
    requires node.Fallback?
    ensures r == FallbackFrom(w, node, 0, input, Start(tick))
    decreases node, 1
  {
    var acc, i := Start(tick), 0;
    while i <= |node.fallbacks|
      invariant i <= |node.fallbacks| + 1
      invariant FallbackFrom(w, node, 0, input, Start(tick)) == FallbackFrom(w, node, i, input, acc)
    {
      var ran := RunNode(w, Attempt(node, i), input, acc.tick);
      if ran.end.Threw? {
        acc := Caught(acc, ran);
      } else {
        acc := Push(acc, ran);
        if ran.end.outcome.success {
          r := FinishRun(acc, Success(ran.end.outcome.output, acc.children));
          return;
        }
      }
      i := i + 1;
    }
    r := FinishRun(acc, Failure(LastError(acc.children), Null, acc.children));
  }

  method RunSupervisor(w: World, node: Node, input: Value, tick: nat) returns (r: Ran)
    requires node.Supervisor?
    ensures r == SupervisorFrom(w, node, 1, input, Start(tick))
    decreases node, 1
  {
    var acc, current, iteration := Start(tick), input, 1;
    while iteration <= node.maxRounds
      invariant SupervisorFrom(w, node, 1, input, Start(tick)) == SupervisorFrom(w, node, iteration, current, acc)
    {
      if w.cancelled(acc.tick) {
        r := FinishRun(acc, Failure(CancelledError, Null, acc.children));
        return;
      }
      var sup := RunNode(w, node.dispatcher, current, acc.tick);
      if sup.end.Threw? {
        return Abort(acc, sup);
      }
      acc := Push(acc, sup);
      var plan := sup.end.outcome;
      if !plan.success {
        r := FinishRun(acc, Failure(ErrorOr(plan.error, "supervisor failed"), Null, acc.children));
        return;
      }
      var route := node.route(plan.output);
      if route.None? {
        r := FinishRun(acc, Success(plan.output, acc.children));
        return;
      }
      if route.value !in node.workers {
        r := FinishRun(acc, Failure(UnknownKey(route.value), Null, acc.children));
        return;
      }
      var work := RunNode(w, node.workers[route.value], plan.output, acc.tick);
      if work.end.Threw? {
        return Abort(acc, work);
      }
      acc := Push(acc, work);
      if !work.end.outcome.success {
        r := FinishRun(acc, Failure(ErrorOr(work.end.outcome.error, "worker failed"), Null, acc.children));
        return;
      }
      current := work.end.outcome.output;
      iteration := iteration + 1;
    }
    r := FinishRun(acc, Failure(LoopExhausted(node.maxRounds), current, acc.children));
  }

  method RunHandoffChain(w: World, node: Node, input: Value, tick: nat) returns (r: Ran)
    requires node.HandoffChain?
    ensures r == HandoffFrom(w, node, 0, node.initial, input, Start(tick))
    decreases node, 1
  {
    var acc, name, current, hop := Start(tick), node.initial, input, 0;
    while hop < node.maxHandoffs + 1
      invariant HandoffFrom(w, node, 0, node.initial, input, Start(tick))
             == HandoffFrom(w, node, hop, name, current, acc)
    {
      if name !in node.agents {
        r := FinishRun(acc, Failure(UnknownKey(name), Null, acc.children));
        return;
      }
      var ran := RunNode(w, node.agents[name], current, acc.tick);
      if ran.end.Threw? {
        return Abort(acc, ran);
      }
      acc := Push(acc, ran);
      var outcome := ran.end.outcome;
      if !outcome.success {
        r := FinishRun(acc, Failure(ErrorOr(outcome.error, "agent failed"), Null, acc.children));
        return;
      }
      var target := node.target(outcome.output);
      if target.None? {
        r := FinishRun(acc, Success(outcome.output, acc.children));
        return;
      }
      current, name := outcome.output, target.value;
      hop := hop + 1;
    }
    r := FinishRun(acc, Failure(HandoffLimit(node.maxHandoffs), Null, acc.children));
  }

  method ExpandBeam(w: World, node: Node, beam: seq<Value>, start: Acc) returns (p: Phase<Value>)
    requires node.TreeSearch?
    ensures p == ExpandFrom(w, node, beam, 0, [], start)
    decreases node, 0
  {
    var acc, candidates := start, [];
    for i := 0 to |beam|
      invariant ExpandFrom(w, node, beam, 0, [], start) == ExpandFrom(w, node, beam, i, candidates, acc)
    {
      var ran := RunNode(w, node.expander, beam[i], acc.tick);
      if ran.end.Threw? {
        return Halt(Abort(acc, ran), i + 1);
      }
      acc := Push(acc, ran);
      var outcome := ran.end.outcome;
      if !outcome.success {
        var failed := FinishRun(acc, Failure(ErrorOr(outcome.error, "expander failed"), Null, acc.children));
        return Halt(failed, i + 1);
      }
      candidates := candidates + Collected(outcome.output);
    }
    p := Proceed(candidates, acc, |beam|);
  }

  method ScoreCandidates(w: World, node: Node, candidates: seq<Value>, start: Acc) returns (p: Phase<Scored<Value>>)
    requires node.TreeSearch?
    ensures p == ScoreFrom(w, node, candidates, 0, [], start)
    decreases node, 0
  {
    var acc, scored := start, [];
    for i := 0 to |candidates|
      invariant ScoreFrom(w, node, candidates, 0, [], start) == ScoreFrom(w, node, candidates, i, scored, acc)
    {
      var ran := RunNode(w, node.evaluator, candidates[i], acc.tick);
      if ran.end.Threw? {
        return Halt(Abort(acc, ran), i + 1);
      }
      acc := Push(acc, ran);
      var outcome := ran.end.outcome;
      if !outcome.success {
        var failed := FinishRun(acc, Failure(ErrorOr(outcome.error, "evaluator failed"), Null, acc.children));
        return Halt(failed, i + 1);
      }
      var score := w.asFloat(outcome.output);
      if score.None? {
        var failed := FinishRun(acc, Failure(ExecutionFailed("evaluator did not return a number"), Null, acc.children));
        return Halt(failed, i + 1);
      }
      scored := scored + [Scored(score.value, candidates[i])];
    }
    p := Proceed(scored, acc, |candidates|);
  }

  method RunTreeSearch(w: World, node: Node, input: Value, tick: nat) returns (r: Ran)
    requires node.TreeSearch?
    ensures r == TreeFrom(w, node, 1, [input], None, Start(tick)).ran
    decreases node, 1
  {
    var acc, beam, depth := Start(tick), [input], 1;
    var best: Option<Scored<Value>> := None;
    while depth <= node.maxDepth
      invariant TreeFrom(w, node, 1, [input], None, Start(tick)).ran == TreeFrom(w, node, depth, beam, best, acc).ran
    {
      var expanded := ExpandBeam(w, node, beam, acc);
      if expanded.Halt? {
        return expanded.ran;
      }
      acc := expanded.acc;
      if expanded.items == [] {
        assert TreeFrom(w, node, depth, beam, best, expanded.acc).ran == TreeFrom(w, node, depth, beam, best, acc).ran;
        break;
      }
      var scored := ScoreCandidates(w, node, expanded.items, acc);
      if scored.Halt? {
        return scored.ran;
      }
      acc := scored.acc;
      var top := Slice(Rank(scored.items), node.beamWidth);
      if best.None? && top == [] {
        return Crash(acc);
      }
      best := Better(best, top);
      beam := Items(top);
      depth := depth + 1;
    }
    if best.None? {
      r := FinishRun(acc, Failure(ExecutionFailed("tree search produced no candidates"), Null, acc.children));
    } else {
      r := FinishRun(acc, Success(best.value.item, acc.children).(score := Some(best.value.score)));
    }
  }
}
