/** What each mode does with its nodes (`runtime/modes`), told as the visits it makes: which
    node is run next, on what, until when, and what the mode answers in the end. */
module ModeStories {
  import opened JsonValue
  import opened Modes
  import opened Usage
  import opened Wrappers

  // One node run by a mode: what it was given, after how many leaf executions, and what
  // it came to.
  datatype Visit = Visit(node: Node, input: Value, tick: nat, ran: Ran)

  predicate Succeeded(v: Visit) {
    v.ran.end.Returned? && v.ran.end.outcome.success
  }

  predicate Failed(v: Visit) {
    v.ran.end.Returned? && !v.ran.end.outcome.success
  }

  // What a visit handed on.
  function Given(v: Visit): Value {
    match v.ran.end
    case Returned(outcome) => outcome.output
    case Threw(_) => Null
  }

  // What visit `i` is handed when each takes what the one before gave.
  function Handed(input: Value, visits: seq<Visit>, i: nat): Value
    requires i <= |visits|
  {
    if i == 0 then input else Given(visits[i - 1])
  }

  function Clock(tick: nat, visits: seq<Visit>): nat {
    if visits == [] then tick else visits[|visits| - 1].ran.tick
  }

  // The leaf executions of all visits, in order.
  function Calls(visits: seq<Visit>): seq<Call> {
    if visits == [] then [] else Calls(visits[..|visits| - 1]) + visits[|visits| - 1].ran.log
  }

  ghost predicate Runs(w: World, v: Visit) {
    v.ran == Exec(w, v.node, v.input, v.tick)
  }

  // Each visit runs its node, and starts when the one before is over.
  ghost predicate InTurn(w: World, tick: nat, visits: seq<Visit>) {
    && (forall i :: 0 <= i < |visits| ==> Runs(w, visits[i]))
    && (visits != [] ==> visits[0].tick == tick)
    && forall i :: 0 < i < |visits| ==> visits[i].tick == visits[i - 1].ran.tick
  }

  // A visit's outcome, or the bare failure that stands in for an exception.
  ghost predicate Reports(visits: seq<Visit>, children: seq<Outcome>) {
    && |children| == |visits|
    && forall i :: 0 <= i < |visits| ==>
         match visits[i].ran.end
         case Returned(outcome) => children[i] == outcome
         case Threw(error) => children[i] == Outcome(Null, false, Some(error), NO_USAGE, None, [], None)
  }

  // The mode makes these visits in turn and no other leaf execution.
  ghost predicate Makes(w: World, tick: nat, visits: seq<Visit>, ran: Ran) {
    InTurn(w, tick, visits) && ran.tick == Clock(tick, visits) && ran.log == Calls(visits)
  }

  // How it answers: with the outcomes of its visits as children, in order.
  ghost predicate Replies(ran: Ran, visits: seq<Visit>, success: bool, error: Option<Error>, output: Value) {
    && ran.end.Returned?
    && ran.end.outcome.success == success && ran.end.outcome.error == error && ran.end.outcome.output == output
    && Reports(visits, ran.end.outcome.children)
  }

  ghost predicate Fails(ran: Ran, visits: seq<Visit>, error: Error, output: Value) {
    Replies(ran, visits, false, Some(error), output)
  }

  // A visit that failed without saying why is given a reason.
  function Reason(v: Visit, otherwise: string): Error {
    match v.ran.end
    case Threw(error) => error
    case Returned(outcome) => if outcome.error.Some? then outcome.error.value else ExecutionFailed(otherwise)
  }

  // All visits but the last went well.
  ghost predicate GoesWell(visits: seq<Visit>) {
    forall i :: 0 <= i < |visits| - 1 ==> Succeeded(visits[i])
  }

  function Last(visits: seq<Visit>): Visit
    requires visits != []
  {
    visits[|visits| - 1]
  }

  // ---------- the story of each mode ----------

  ghost predicate SequenceVisit(w: World, node: Node, input: Value, visits: seq<Visit>, i: nat)
    requires node.Sequence? && i < |visits|
  {
    && i < |node.nodes| && visits[i].node == node.nodes[i]
    && visits[i].input == Handed(input, visits, i) && !w.cancelled(visits[i].tick)
  }

  // Its nodes in order, each on what the one before gave.
  ghost predicate SequenceStory(w: World, node: Node, input: Value, visits: seq<Visit>, ran: Ran)
    requires node.Sequence?
  {
    var n := |visits|;
    && GoesWell(visits) && (forall i :: 0 <= i < n ==> SequenceVisit(w, node, input, visits, i))
    && if n > 0 && Last(visits).ran.end.Threw? then ran.end == Last(visits).ran.end
       else if n > 0 && Failed(Last(visits)) then
         Fails(ran, visits, Reason(Last(visits), "node failed in sequence"), Given(Last(visits)))
       else if n == |node.nodes| then Replies(ran, visits, true, None, Handed(input, visits, n))
       else w.cancelled(ran.tick) && Fails(ran, visits, CancelledError, Null)
  }

  ghost predicate LoopVisit(w: World, node: Node, input: Value, visits: seq<Visit>, i: nat)
    requires node.Loop? && i < |visits|
  {
    && i < node.maxIterations && visits[i].node == node.body
    && visits[i].input == Handed(input, visits, i) && !w.cancelled(visits[i].tick)
  }

  // Its body again and again on what it gave last, while `until` says so.
  ghost predicate LoopStory(w: World, node: Node, input: Value, visits: seq<Visit>, ran: Ran)
    requires node.Loop?
  {
    var n := |visits|;
    && GoesWell(visits) && (forall i :: 0 <= i < n - 1 ==> node.until(Given(visits[i])))
    && (forall i :: 0 <= i < n ==> LoopVisit(w, node, input, visits, i))
    && if n > 0 && Last(visits).ran.end.Threw? then ran.end == Last(visits).ran.end
       else if n > 0 && Failed(Last(visits)) then
         Fails(ran, visits, Reason(Last(visits), "loop body failed"), Given(Last(visits)))
       else if n > 0 && !node.until(Given(Last(visits))) then Replies(ran, visits, true, None, Given(Last(visits)))
       else if n >= node.maxIterations then
         Fails(ran, visits, LoopExhausted(node.maxIterations), Handed(input, visits, n))
       else w.cancelled(ran.tick) && Fails(ran, visits, CancelledError, Null)
  }

  // Its primary and then its fallbacks, all on the same input, until one succeeds.
  ghost predicate FallbackStory(node: Node, input: Value, visits: seq<Visit>, ran: Ran)
    requires node.Fallback?
  {
    var n := |visits|;
    && 0 < n <= 1 + |node.fallbacks|
    && (forall i :: 0 <= i < n - 1 ==> !Succeeded(visits[i]))
    && (forall i :: 0 <= i < n ==>
          visits[i].node == ([node.primary] + node.fallbacks)[i] && visits[i].input == input)
    && if Succeeded(Last(visits)) then Replies(ran, visits, true, None, Given(Last(visits)))
       else n == 1 + |node.fallbacks| && Fails(ran, visits, Reason(Last(visits), "all fallbacks failed"), Null)
  }

  // Visit `i` of a supervisor: the dispatcher, or the worker it has just routed to.
  ghost predicate SupervisorVisit(w: World, node: Node, input: Value, visits: seq<Visit>, i: nat)
    requires node.Supervisor? && i < |visits|
  {
    && visits[i].input == Handed(input, visits, i) && i < 2 * node.maxRounds
    && if i % 2 == 0 then visits[i].node == node.dispatcher && !w.cancelled(visits[i].tick)
       else
         var route := node.route(Given(visits[i - 1]));
         route.Some? && route.value in node.workers && visits[i].node == node.workers[route.value]
  }

  // Its dispatcher and the worker it routes to, by turns, each on what the other gave.
  ghost predicate SupervisorStory(w: World, node: Node, input: Value, visits: seq<Visit>, ran: Ran)
    requires node.Supervisor?
  {
    var n := |visits|;
    && GoesWell(visits) && (forall i :: 0 <= i < n ==> SupervisorVisit(w, node, input, visits, i))
    && if n > 0 && Last(visits).ran.end.Threw? then ran.end == Last(visits).ran.end
       else if n > 0 && Failed(Last(visits)) then
         Fails(ran, visits, Reason(Last(visits), if n % 2 == 1 then "supervisor failed" else "worker failed"), Null)
       else if n % 2 == 1 then
         match node.route(Given(Last(visits)))
         case None => Replies(ran, visits, true, None, Given(Last(visits)))
         case Some(name) => name !in node.workers && Fails(ran, visits, UnknownKey(name), Null)
       else if n >= 2 * node.maxRounds then
         Fails(ran, visits, LoopExhausted(node.maxRounds), Handed(input, visits, n))
       else w.cancelled(ran.tick) && Fails(ran, visits, CancelledError, Null)
  }

  // The agent named next: the initial one, or the one the last visit hands over to.
  function NextName(node: Node, visits: seq<Visit>, i: nat): Option<string>
    requires node.HandoffChain? && i <= |visits|
  {
    if i == 0 then Some(node.initial) else node.target(Given(visits[i - 1]))
  }

  ghost predicate HandoffVisit(node: Node, input: Value, visits: seq<Visit>, i: nat)
    requires node.HandoffChain? && i < |visits|
  {
    var name := NextName(node, visits, i);
    && name.Some? && name.value in node.agents && visits[i].node == node.agents[name.value]
    && visits[i].input == Handed(input, visits, i) && i <= node.maxHandoffs
  }

  // One agent after another by name, each on what the one before gave.
  ghost predicate HandoffStory(node: Node, input: Value, visits: seq<Visit>, ran: Ran)
    requires node.HandoffChain?
  {
    var n := |visits|;
    && GoesWell(visits) && (forall i :: 0 <= i < n ==> HandoffVisit(node, input, visits, i))
    && if n > 0 && Last(visits).ran.end.Threw? then ran.end == Last(visits).ran.end
       else if n > 0 && Failed(Last(visits)) then
         Fails(ran, visits, Reason(Last(visits), "agent failed"), Null)
       else
         match NextName(node, visits, n)
         case None => Replies(ran, visits, true, None, Given(Last(visits)))
         case Some(name) =>
           if n > node.maxHandoffs then Fails(ran, visits, HandoffLimit(node.maxHandoffs), Null)
           else name !in node.agents && Fails(ran, visits, UnknownKey(name), Null)
  }

  // ---------- telling it ----------

  // What a mode in progress has collected is what its visits so far came to.
  ghost predicate Told(w: World, tick: nat, visits: seq<Visit>, acc: Acc) {
    && InTurn(w, tick, visits) && acc.tick == Clock(tick, visits) && acc.log == Calls(visits)
    && Reports(visits, acc.children)
  }

  lemma NothingTold(w: World, tick: nat)
    ensures Told(w, tick, [], Start(tick))
  {
  }

  // The visit a mode in progress makes next.
  ghost predicate Next(w: World, acc: Acc, v: Visit) {
    Runs(w, v) && v.tick == acc.tick
  }

  lemma TellReturned(w: World, tick: nat, visits: seq<Visit>, acc: Acc, v: Visit)
    requires Told(w, tick, visits, acc) && Next(w, acc, v) && v.ran.end.Returned?
    ensures Told(w, tick, visits + [v], Push(acc, v.ran))
  {
    hide Runs;
    assert (visits + [v])[..|visits|] == visits;
  }

  lemma TellCaught(w: World, tick: nat, visits: seq<Visit>, acc: Acc, v: Visit)
    requires Told(w, tick, visits, acc) && Next(w, acc, v) && v.ran.end.Threw?
    ensures Told(w, tick, visits + [v], Caught(acc, v.ran))
  {
    hide Runs;
    assert (visits + [v])[..|visits|] == visits;
  }

  lemma TellAborted(w: World, tick: nat, visits: seq<Visit>, acc: Acc, v: Visit)
    requires Told(w, tick, visits, acc) && Next(w, acc, v) && v.ran.end.Threw?
    ensures Makes(w, tick, visits + [v], Abort(acc, v.ran)) && Abort(acc, v.ran).end == v.ran.end
  {
    hide Runs;
    assert (visits + [v])[..|visits|] == visits;
  }

  lemma TellFinished(w: World, tick: nat, visits: seq<Visit>, acc: Acc, outcome: Outcome)
    requires Told(w, tick, visits, acc) && outcome.children == acc.children
    ensures Finish(acc, outcome).tick == acc.tick
    ensures var ran := Finish(acc, outcome);
            Makes(w, tick, visits, ran) && Replies(ran, visits, outcome.success, outcome.error, outcome.output)
  {
    hide Runs, Folded;
  }

  lemma SupervisorGrows(w: World, node: Node, input: Value, visits: seq<Visit>, v: Visit)
    requires node.Supervisor? && (forall i :: 0 <= i < |visits| ==> SupervisorVisit(w, node, input, visits, i))
    requires v.input == Handed(input, visits, |visits|) && |visits| < 2 * node.maxRounds
    requires if |visits| % 2 == 0 then v.node == node.dispatcher && !w.cancelled(v.tick)
             else
               var route := node.route(Given(visits[|visits| - 1]));
               route.Some? && route.value in node.workers && v.node == node.workers[route.value]
    ensures forall i :: 0 <= i <= |visits| ==> SupervisorVisit(w, node, input, visits + [v], i)
  {
    var more := visits + [v];
    forall i | 0 <= i < |visits| ensures SupervisorVisit(w, node, input, more, i) {
      assert SupervisorVisit(w, node, input, visits, i);
      assert more[i] == visits[i] && (i > 0 ==> more[i - 1] == visits[i - 1]);
    }
  }

  lemma {:induction false} SupervisorTells(w: World, node: Node, iteration: int, current: Value, acc: Acc,
                                           input: Value, tick: nat, past: seq<Visit>) returns (visits: seq<Visit>)
    requires node.Supervisor? && Told(w, tick, past, acc)
    requires |past| == 2 * (iteration - 1) && (forall i :: 0 <= i < |past| ==> Succeeded(past[i]))
    requires current == Handed(input, past, |past|)
    requires forall i :: 0 <= i < |past| ==> SupervisorVisit(w, node, input, past, i)
    ensures var ran := SupervisorFrom(w, node, iteration, current, acc);
            Makes(w, tick, visits, ran) && SupervisorStory(w, node, input, visits, ran)
    decreases node.maxRounds + 1 - iteration, 1
  {
    hide Exec, Told, Makes, Finish, Push, Abort, Reports, SupervisorVisit;
    visits := past;
    if iteration > node.maxRounds {
      TellFinished(w, tick, past, acc, Failure(LoopExhausted(node.maxRounds), current, acc.children));
    } else if w.cancelled(acc.tick) {
      TellFinished(w, tick, past, acc, Failure(CancelledError, Null, acc.children));
    } else {
      var plan := Visit(node.dispatcher, current, acc.tick, Exec(w, node.dispatcher, current, acc.tick));
      visits := past + [plan];
      SupervisorGrows(w, node, input, past, plan);
      if plan.ran.end.Threw? {
        TellAborted(w, tick, past, acc, plan);
        return;
      }
      TellReturned(w, tick, past, acc, plan);
      var acc1, outcome := Push(acc, plan.ran), plan.ran.end.outcome;
      var route := node.route(outcome.output);
      if !outcome.success {
        TellFinished(w, tick, visits, acc1,
          Failure(ErrorOr(outcome.error, "supervisor failed"), Null, acc1.children));
        return;
      }
      if route.None? {
        TellFinished(w, tick, visits, acc1, Success(outcome.output, acc1.children));
        return;
      }
      if route.value !in node.workers {
        TellFinished(w, tick, visits, acc1, Failure(UnknownKey(route.value), Null, acc1.children));
        return;
      }
      visits := WorkTells(w, node, iteration, current, acc, plan, input, tick, visits);
    }
  }

  lemma SupervisorRound(w: World, node: Node, iteration: int, current: Value, acc: Acc, plan: Ran, work: Ran)
    requires node.Supervisor? && iteration <= node.maxRounds && !w.cancelled(acc.tick)
    requires plan == Exec(w, node.dispatcher, current, acc.tick) && plan.end.Returned? && plan.end.outcome.success
    requires var route := node.route(plan.end.outcome.output);
             && route.Some? && route.value in node.workers
             && work == Exec(w, node.workers[route.value], plan.end.outcome.output, plan.tick)
    ensures var acc1 := Push(acc, plan);
            SupervisorFrom(w, node, iteration, current, acc)
            == if work.end.Threw? then Abort(acc1, work)
               else if !work.end.outcome.success
               then FinishFail(Push(acc1, work), ErrorOr(work.end.outcome.error, "worker failed"), Null)
               else SupervisorFrom(w, node, iteration + 1, work.end.outcome.output, Push(acc1, work))
  {
    hide Exec, Finish;
  }

  // The second half of a round: the dispatcher has named a worker.
  lemma WorkTells(w: World, node: Node, iteration: int, current: Value, acc: Acc, plan: Visit,
                  input: Value, tick: nat, past: seq<Visit>) returns (visits: seq<Visit>)
    requires node.Supervisor? && iteration <= node.maxRounds && !w.cancelled(acc.tick)
    requires plan.ran == Exec(w, node.dispatcher, current, acc.tick) && Succeeded(plan)
    requires node.route(Given(plan)).Some? && node.route(Given(plan)).value in node.workers
    requires Told(w, tick, past, Push(acc, plan.ran))
    requires |past| == 2 * iteration - 1 && past[|past| - 1] == plan
    requires forall i :: 0 <= i < |past| ==> Succeeded(past[i]) && SupervisorVisit(w, node, input, past, i)
    ensures var ran := SupervisorFrom(w, node, iteration, current, acc);
            Makes(w, tick, visits, ran) && SupervisorStory(w, node, input, visits, ran)
    decreases node.maxRounds + 1 - iteration, 0
  {
    hide Exec, Told, Makes, Finish, Abort, Reports, SupervisorFrom, SupervisorVisit;
    var acc1, name := Push(acc, plan.ran), node.route(Given(plan)).value;
    var worker := node.workers[name];
    var work := Visit(worker, Given(plan), acc1.tick, Exec(w, worker, Given(plan), acc1.tick));
    visits := past + [work];
    SupervisorRound(w, node, iteration, current, acc, plan.ran, work.ran);
    SupervisorGrows(w, node, input, past, work);
    if work.ran.end.Threw? {
      TellAborted(w, tick, past, acc1, work);
      return;
    }
    TellReturned(w, tick, past, acc1, work);
    var acc2, done := Push(acc1, work.ran), work.ran.end.outcome;
    if done.success {
      visits := SupervisorTells(w, node, iteration + 1, done.output, acc2, input, tick, visits);
    } else {
      TellFinished(w, tick, visits, acc2, Failure(ErrorOr(done.error, "worker failed"), Null, acc2.children));
    }
  }

  lemma SequenceVisitsLater(w: World, node: Node, input: Value, visits: seq<Visit>, more: seq<Visit>)
    requires node.Sequence? && visits <= more
    requires forall i :: 0 <= i < |visits| ==> SequenceVisit(w, node, input, visits, i)
    ensures forall i :: 0 <= i < |visits| ==> SequenceVisit(w, node, input, more, i)
  {
    forall i | 0 <= i < |visits| ensures SequenceVisit(w, node, input, more, i) {
      assert SequenceVisit(w, node, input, visits, i);
      assert more[i] == visits[i] && (i > 0 ==> more[i - 1] == visits[i - 1]);
    }
  }

  lemma {:induction false} SequenceTells(w: World, node: Node, i: nat, current: Value, acc: Acc,
                                         input: Value, tick: nat, past: seq<Visit>) returns (visits: seq<Visit>)
    requires node.Sequence? && Told(w, tick, past, acc)
    requires i == |past| <= |node.nodes| && (forall j :: 0 <= j < i ==> Succeeded(past[j]))
    requires current == Handed(input, past, i)
    requires forall j :: 0 <= j < i ==> SequenceVisit(w, node, input, past, j)
    ensures var ran := SequenceFrom(w, node, i, current, acc);
            Makes(w, tick, visits, ran) && SequenceStory(w, node, input, visits, ran)
    decreases |node.nodes| - i
  {
    hide Exec, Told, Makes, Finish, Push, Abort, Reports;
    visits := past;
    if i == |node.nodes| {
      TellFinished(w, tick, past, acc, Success(current, acc.children));
    } else if w.cancelled(acc.tick) {
      TellFinished(w, tick, past, acc, Failure(CancelledError, Null, acc.children));
    } else {
      var v := Visit(node.nodes[i], current, acc.tick, Exec(w, node.nodes[i], current, acc.tick));
      visits := past + [v];
      SequenceVisitsLater(w, node, input, past, visits);
      assert SequenceVisit(w, node, input, visits, i);
      if v.ran.end.Threw? {
        TellAborted(w, tick, past, acc, v);
        return;
      }
      TellReturned(w, tick, past, acc, v);
      var next, outcome := Push(acc, v.ran), v.ran.end.outcome;
      if outcome.success {
        visits := SequenceTells(w, node, i + 1, outcome.output, next, input, tick, visits);
      } else {
        TellFinished(w, tick, visits, next,
          Failure(ErrorOr(outcome.error, "node failed in sequence"), outcome.output, next.children));
      }
    }
  }

  lemma LoopVisitsLater(w: World, node: Node, input: Value, visits: seq<Visit>, more: seq<Visit>)
    requires node.Loop? && visits <= more
    requires forall i :: 0 <= i < |visits| ==> LoopVisit(w, node, input, visits, i)
    ensures forall i :: 0 <= i < |visits| ==> LoopVisit(w, node, input, more, i)
  {
    forall i | 0 <= i < |visits| ensures LoopVisit(w, node, input, more, i) {
      assert LoopVisit(w, node, input, visits, i);
      assert more[i] == visits[i] && (i > 0 ==> more[i - 1] == visits[i - 1]);
    }
  }

  lemma {:induction false} LoopTells(w: World, node: Node, iteration: int, current: Value, acc: Acc,
                                     input: Value, tick: nat, past: seq<Visit>) returns (visits: seq<Visit>)
    requires node.Loop? && Told(w, tick, past, acc)
    requires |past| == iteration - 1
    requires forall j :: 0 <= j < |past| ==> Succeeded(past[j]) && node.until(Given(past[j]))
    requires current == Handed(input, past, |past|)
    requires forall j :: 0 <= j < |past| ==> LoopVisit(w, node, input, past, j)
    ensures var ran := LoopFrom(w, node, iteration, current, acc);
            Makes(w, tick, visits, ran) && LoopStory(w, node, input, visits, ran)
    decreases node.maxIterations + 1 - iteration
  {
    hide Exec, Told, Makes, Finish, Push, Abort, Reports;
    visits := past;
    if iteration > node.maxIterations {
      TellFinished(w, tick, past, acc, Failure(LoopExhausted(node.maxIterations), current, acc.children));
    } else if w.cancelled(acc.tick) {
      TellFinished(w, tick, past, acc, Failure(CancelledError, Null, acc.children));
    } else {
      var v := Visit(node.body, current, acc.tick, Exec(w, node.body, current, acc.tick));
      visits := past + [v];
      LoopVisitsLater(w, node, input, past, visits);
      assert LoopVisit(w, node, input, visits, |past|);
      if v.ran.end.Threw? {
        TellAborted(w, tick, past, acc, v);
        return;
      }
      TellReturned(w, tick, past, acc, v);
      var next, outcome := Push(acc, v.ran), v.ran.end.outcome;
      if !outcome.success {
        TellFinished(w, tick, visits, next,
          Failure(ErrorOr(outcome.error, "loop body failed"), outcome.output, next.children));
      } else if !node.until(outcome.output) {
        TellFinished(w, tick, visits, next, Success(outcome.output, next.children));
      } else {
        visits := LoopTells(w, node, iteration + 1, outcome.output, next, input, tick, visits);
      }
    }
  }

  lemma {:induction false} FallbackTells(w: World, node: Node, i: nat, acc: Acc,
                                         input: Value, tick: nat, past: seq<Visit>) returns (visits: seq<Visit>)
    requires node.Fallback? && Told(w, tick, past, acc)
    requires i == |past| <= |node.fallbacks| + 1
    requires forall j :: 0 <= j < i ==>
               && !Succeeded(past[j]) && past[j].input == input
               && past[j].node == ([node.primary] + node.fallbacks)[j]
    ensures var ran := FallbackFrom(w, node, i, input, acc);
            Makes(w, tick, visits, ran) && FallbackStory(node, input, visits, ran)
    decreases |node.fallbacks| + 1 - i
  {
    hide Exec, Told, Makes, Finish, Push, Caught, Reports;
    visits := past;
    if i > |node.fallbacks| {
      LastErrorTold(w, tick, past, acc);
      TellFinished(w, tick, past, acc, Failure(LastError(acc.children), Null, acc.children));
    } else {
      var v := Visit(Attempt(node, i), input, acc.tick, Exec(w, Attempt(node, i), input, acc.tick));
      visits := past + [v];
      if v.ran.end.Threw? {
        TellCaught(w, tick, past, acc, v);
        visits := FallbackTells(w, node, i + 1, Caught(acc, v.ran), input, tick, visits);
        return;
      }
      TellReturned(w, tick, past, acc, v);
      var next := Push(acc, v.ran);
      if v.ran.end.outcome.success {
        TellFinished(w, tick, visits, next, Success(v.ran.end.outcome.output, next.children));
      } else {
        visits := FallbackTells(w, node, i + 1, next, input, tick, visits);
      }
    }
  }

  lemma LastErrorTold(w: World, tick: nat, visits: seq<Visit>, acc: Acc)
    requires Told(w, tick, visits, acc) && visits != []
    ensures LastError(acc.children) == Reason(Last(visits), "all fallbacks failed")
  {
    hide Runs;
  }

  lemma {:induction false} HandoffTells(w: World, node: Node, hop: int, name: string, current: Value, acc: Acc,
                                        input: Value, tick: nat, past: seq<Visit>) returns (visits: seq<Visit>)
    requires node.HandoffChain? && Told(w, tick, past, acc)
    requires hop == |past| && (forall j :: 0 <= j < |past| ==> Succeeded(past[j]))
    requires current == Handed(input, past, |past|) && NextName(node, past, |past|) == Some(name)
    requires forall j :: 0 <= j < |past| ==> HandoffVisit(node, input, past, j)
    ensures var ran := HandoffFrom(w, node, hop, name, current, acc);
            Makes(w, tick, visits, ran) && HandoffStory(node, input, visits, ran)
    decreases node.maxHandoffs + 1 - hop
  {
    hide Exec, Told, Makes, Finish, Push, Abort, Reports;
    visits := past;
    if hop > node.maxHandoffs {
      TellFinished(w, tick, past, acc, Failure(HandoffLimit(node.maxHandoffs), Null, acc.children));
    } else if name !in node.agents {
      TellFinished(w, tick, past, acc, Failure(UnknownKey(name), Null, acc.children));
    } else {
      var v := Visit(node.agents[name], current, acc.tick, Exec(w, node.agents[name], current, acc.tick));
      visits := past + [v];
      HandoffVisitsLater(node, input, past, visits);
      assert HandoffVisit(node, input, visits, |past|);
      if v.ran.end.Threw? {
        TellAborted(w, tick, past, acc, v);
        return;
      }
      TellReturned(w, tick, past, acc, v);
      var next, outcome := Push(acc, v.ran), v.ran.end.outcome;
      var target := node.target(outcome.output);
      if !outcome.success {
        TellFinished(w, tick, visits, next, Failure(ErrorOr(outcome.error, "agent failed"), Null, next.children));
      } else if target.None? {
        TellFinished(w, tick, visits, next, Success(outcome.output, next.children));
      } else {
        visits := HandoffTells(w, node, hop + 1, target.value, outcome.output, next, input, tick, visits);
      }
    }
  }

  lemma HandoffVisitsLater(node: Node, input: Value, visits: seq<Visit>, more: seq<Visit>)
    requires node.HandoffChain? && visits <= more
    requires forall i :: 0 <= i < |visits| ==> HandoffVisit(node, input, visits, i)
    ensures forall i :: 0 <= i < |visits| ==> HandoffVisit(node, input, more, i)
  {
    forall i | 0 <= i < |visits| ensures HandoffVisit(node, input, more, i) {
      assert HandoffVisit(node, input, visits, i);
      assert more[i] == visits[i] && (i > 0 ==> more[i - 1] == visits[i - 1]);
    }
  }

  // ---------- every mode but the beam search ----------

  ghost predicate LeafStory(w: World, name: string, input: Value, tick: nat, ran: Ran) {
    && ran.tick == tick + 1
    && match w.leaf(name, tick, input)
       case Raises(error) => ran.end == Threw(error) && ran.log == [Call(name, tick, input, false)]
       case Answers(output, success, error) =>
         && ran.log == [Call(name, tick, input, true)]
         && ran.end == Returned(Outcome(output, success, error, w.usage(tick), w.cost(tick), [], None))
  }

  // A conditional is the branch its test picks, and adds nothing to it.
  ghost predicate ConditionalStory(node: Node, input: Value, visits: seq<Visit>, ran: Ran)
    requires node.Conditional?
  {
    && |visits| == 1 && visits[0].input == input && visits[0].ran == ran
    && visits[0].node == if node.test(input) then node.onTrue else node.onFalse
  }

  ghost predicate Story(w: World, node: Node, input: Value, tick: nat, visits: seq<Visit>, ran: Ran) {
    match node
    case Leaf(name) => visits == [] && LeafStory(w, name, input, tick, ran)
    case Sequence(_) => Makes(w, tick, visits, ran) && SequenceStory(w, node, input, visits, ran)
    case Loop(_, _, _) => Makes(w, tick, visits, ran) && LoopStory(w, node, input, visits, ran)
    case Fallback(_, _) => Makes(w, tick, visits, ran) && FallbackStory(node, input, visits, ran)
    case Conditional(_, _, _) => Makes(w, tick, visits, ran) && ConditionalStory(node, input, visits, ran)
    case Supervisor(_, _, _, _) => Makes(w, tick, visits, ran) && SupervisorStory(w, node, input, visits, ran)
    case HandoffChain(_, _, _, _) => Makes(w, tick, visits, ran) && HandoffStory(node, input, visits, ran)
    case TreeSearch(_, _, _, _) => true
  }

  lemma ConditionalTells(w: World, node: Node, input: Value, tick: nat) returns (visits: seq<Visit>)
    requires node.Conditional?
    ensures var ran := Exec(w, node, input, tick);
            Makes(w, tick, visits, ran) && ConditionalStory(node, input, visits, ran)
  {
    var branch := if node.test(input) then node.onTrue else node.onFalse;
    visits := [Visit(branch, input, tick, Exec(w, branch, input, tick))];
    assert visits[..0] == [];
    assert Calls(visits) == visits[0].ran.log;
  }

  lemma ModeTellsItsStory(w: World, node: Node, input: Value, tick: nat) returns (visits: seq<Visit>)
    ensures Story(w, node, input, tick, visits, Exec(w, node, input, tick))
  {
    hide Told, Makes, SequenceFrom, LoopFrom, FallbackFrom, SupervisorFrom, HandoffFrom, TreeFrom;
    hide SequenceStory, LoopStory, FallbackStory, SupervisorStory, HandoffStory, ConditionalStory;
    visits := [];
    NothingTold(w, tick);
    match node {
      case Sequence(_) => visits := SequenceTells(w, node, 0, input, Start(tick), input, tick, []);
      case Loop(_, _, _) => visits := LoopTells(w, node, 1, input, Start(tick), input, tick, []);
      case Fallback(_, _) => visits := FallbackTells(w, node, 0, Start(tick), input, tick, []);
      case Conditional(_, _, _) => visits := ConditionalTells(w, node, input, tick);
      case Supervisor(_, _, _, _) => visits := SupervisorTells(w, node, 1, input, Start(tick), input, tick, []);
      case HandoffChain(_, initial, _, _) =>
        visits := HandoffTells(w, node, 0, initial, input, Start(tick), input, tick, []);
      case _ =>
    }
  }

  // A loop, a fallback, a supervisor or a handoff chain that succeeds hands on what its
  // last child gave: the first output that `until` rejects, the first success, a
  // dispatcher's output without a route, an agent's output without a target.
  lemma SuccessIsTheLastChild(w: World, node: Node, input: Value, tick: nat)
    requires node.Loop? || node.Fallback? || node.Supervisor? || node.HandoffChain?
    requires var ran := Exec(w, node, input, tick); ran.end.Returned? && ran.end.outcome.success
    ensures var outcome := Exec(w, node, input, tick).end.outcome;
            && outcome.children != []
            && var last := outcome.children[|outcome.children| - 1];
            && last.success && outcome.output == last.output
            && (node.Loop? ==> !node.until(outcome.output))
            && (node.Supervisor? ==> |outcome.children| % 2 == 1 && node.route(outcome.output).None?)
            && (node.HandoffChain? ==> node.target(outcome.output).None?)
  {
    hide Exec, Makes, LoopVisit, SupervisorVisit, HandoffVisit;
    var visits := ModeTellsItsStory(w, node, input, tick);
    var ran := Exec(w, node, input, tick);
    assert Replies(ran, visits, true, None, ran.end.outcome.output) && visits != [];
  }
}
