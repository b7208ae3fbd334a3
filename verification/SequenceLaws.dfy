/** Flattening sequences: a Sequence written inside a Sequence may be replaced by its
    nodes in place without any observable change, and the one case where that fails. */
module SequenceLaws {
  import opened Conservation
  import opened JsonValue
  import opened Modes
  import opened Usage
  import opened Wrappers

  // All a caller sees of a run except the shape of `children`.
  datatype Observation = Observation(end: Visible, tick: nat, log: seq<Call>, lost: seq<Call>)
  datatype Visible =
    | Gave(output: Value, success: bool, error: Option<Error>, bill: Bill)
    | Raised(exception: Error)

  function Observe(ran: Ran): Observation {
    var end :=
      match ran.end
      case Threw(error) => Raised(error)
      case Returned(o) => Gave(o.output, o.success, o.error, BillOf(o));
    Observation(end, ran.tick, ran.log, ran.lost)
  }

  // A stretch of a sequence on its own, free of the mode's accumulator.
  function Nothing(current: Value, tick: nat): Observation {
    Observation(Gave(current, true, None, NO_BILL), tick, [], [])
  }

  predicate GoesOn(o: Observation) {
    o.end.Gave? && o.end.success
  }

  function Then(first: Observation, second: Observation): Observation {
    var log := first.log + second.log;
    match second.end
    case Raised(_) => Observation(second.end, second.tick, log, log)
    case Gave(output, success, error, bill) =>
      var before := if first.end.Gave? then first.end.bill else NO_BILL;
      Observation(Gave(output, success, error, Plus(before, bill)), second.tick, log, first.lost + second.lost)
  }

  // One node as the sequence treats it: polled, run, and given an error if it failed
  // without one.
  function Single(w: World, node: Node, current: Value, tick: nat): Observation {
    if w.cancelled(tick) then Observation(Gave(Null, false, Some(CancelledError), NO_BILL), tick, [], [])
    else
      var ran := Exec(w, node, current, tick);
      match ran.end
      case Threw(error) => Observation(Raised(error), ran.tick, ran.log, ran.log)
      case Returned(o) =>
        var error := if o.success then None else Some(ErrorOr(o.error, "node failed in sequence"));
        Observation(Gave(o.output, o.success, error, BillOf(o)), ran.tick, ran.log, ran.lost)
  }

  function Thread(w: World, nodes: seq<Node>, current: Value, tick: nat): Observation {
    if nodes == [] then Nothing(current, tick)
    else
      var first := Single(w, nodes[0], current, tick);
      if GoesOn(first) then Then(first, Thread(w, nodes[1..], first.end.output, first.tick)) else first
  }

  lemma ThenAssociative(a: Observation, b: Observation, c: Observation)
    requires GoesOn(a) && GoesOn(b)
    ensures Then(Then(a, b), c) == Then(a, Then(b, c))
  {
    hide Plus;
    assert a.log + b.log + c.log == a.log + (b.log + c.log);
    assert a.lost + b.lost + c.lost == a.lost + (b.lost + c.lost);
    if c.end.Gave? {
      PlusLaws(a.end.bill, b.end.bill, c.end.bill);
    }
  }

  lemma NothingThen(o: Observation, current: Value, tick: nat)
    requires o.end.Raised? ==> o.lost == o.log
    ensures Then(Nothing(current, tick), o) == o
  {
    hide Plus;
    assert [] + o.log == o.log && [] + o.lost == o.lost;
    if o.end.Gave? {
      PlusLaws(o.end.bill, NO_BILL, NO_BILL);
    }
  }

  lemma ThenNothing(o: Observation)
    requires GoesOn(o) && o.end.error.None?
    ensures Then(o, Nothing(o.end.output, o.tick)) == o
  {
    hide Plus;
    assert o.log + [] == o.log && o.lost + [] == o.lost;
    PlusLaws(o.end.bill, NO_BILL, NO_BILL);
  }

  lemma {:induction false} ThreadShape(w: World, nodes: seq<Node>, current: Value, tick: nat)
    ensures var o := Thread(w, nodes, current, tick);
            && (o.end.Raised? ==> o.lost == o.log)
            && (o.end.Gave? ==> (o.end.success <==> o.end.error.None?))
  {
    hide Exec, Plus;
    if nodes != [] {
      var first := Single(w, nodes[0], current, tick);
      if GoesOn(first) {
        ThreadShape(w, nodes[1..], first.end.output, first.tick);
      }
    }
  }

  // Threading a concatenation is threading its halves one after the other.
  lemma {:induction false} ThreadConcat(w: World, xs: seq<Node>, ys: seq<Node>, current: Value, tick: nat)
    ensures var first := Thread(w, xs, current, tick);
            Thread(w, xs + ys, current, tick)
            == if GoesOn(first) then Then(first, Thread(w, ys, first.end.output, first.tick)) else first
    decreases |xs|
  {
    hide Exec, Plus, Then, Single;
    if xs == [] {
      assert xs + ys == ys;
      ThreadShape(w, ys, current, tick);
      NothingThen(Thread(w, ys, current, tick), current, tick);
    } else {
      assert (xs + ys)[0] == xs[0] && (xs + ys)[1..] == xs[1..] + ys;
      var first := Single(w, xs[0], current, tick);
      if GoesOn(first) {
        var rest := Thread(w, xs[1..], first.end.output, first.tick);
        ThreadConcat(w, xs[1..], ys, first.end.output, first.tick);
        ThenGoesOn(first, rest);
        if GoesOn(rest) {
          ThenAssociative(first, rest, Thread(w, ys, rest.end.output, rest.tick));
        }
      }
    }
  }

  lemma ThenGoesOn(a: Observation, b: Observation)
    ensures GoesOn(Then(a, b)) <==> GoesOn(b)
    ensures Then(a, b).tick == b.tick
    ensures GoesOn(b) ==> Then(a, b).end.output == b.end.output
  {
    hide Plus;
  }

  // ---------- the mode and the thread ----------

  function Progress(acc: Acc, current: Value): Observation {
    Observation(Gave(current, true, None, Children(acc.children)), acc.tick, acc.log, acc.lost)
  }

  lemma PushProgress(acc: Acc, ran: Ran)
    requires ran.end.Returned?
    ensures Children(Push(acc, ran).children) == Plus(Children(acc.children), BillOf(ran.end.outcome))
  {
    hide Plus;
    assert Push(acc, ran).children[..|acc.children|] == acc.children;
  }

  lemma {:induction false} SequenceIsThread(w: World, node: Node, i: nat, current: Value, acc: Acc)
    requires node.Sequence? && i <= |node.nodes|
    ensures Observe(SequenceFrom(w, node, i, current, acc))
            == Then(Progress(acc, current), Thread(w, node.nodes[i..], current, acc.tick))
    decreases |node.nodes| - i
  {
    hide Exec, Plus, Children;
    var before := Progress(acc, current);
    if i == |node.nodes| {
      FinishObserved(acc, Success(current, acc.children));
      ThenNothing(before);
    } else {
      var first := Single(w, node.nodes[i], current, acc.tick);
      assert node.nodes[i..][0] == node.nodes[i] && node.nodes[i..][1..] == node.nodes[i + 1..];
      if w.cancelled(acc.tick) {
        FinishObserved(acc, Failure(CancelledError, Null, acc.children));
        PlusLaws(Children(acc.children), NO_BILL, NO_BILL);
        assert acc.log + [] == acc.log && acc.lost + [] == acc.lost;
      } else {
        var ran := Exec(w, node.nodes[i], current, acc.tick);
        if ran.end.Returned? {
          var next, outcome := Push(acc, ran), ran.end.outcome;
          PushProgress(acc, ran);
          if outcome.success {
            SequenceIsThread(w, node, i + 1, outcome.output, next);
            ThenAssociative(before, first, Thread(w, node.nodes[i + 1..], outcome.output, next.tick));
          } else {
            FinishObserved(next,
              Failure(ErrorOr(outcome.error, "node failed in sequence"), outcome.output, next.children));
          }
        }
      }
    }
  }

  lemma FinishObserved(acc: Acc, outcome: Outcome)
    requires outcome.children == acc.children && BillOf(outcome) == NO_BILL
    ensures Observe(Finish(acc, outcome))
            == Observation(Gave(outcome.output, outcome.success, outcome.error, Children(acc.children)),
                           acc.tick, acc.log, acc.lost)
  {
    hide Plus;
  }

  lemma SequenceObserved(w: World, nodes: seq<Node>, input: Value, tick: nat)
    ensures Observe(Exec(w, Sequence(nodes), input, tick)) == Thread(w, nodes, input, tick)
  {
    hide Plus, Then, SequenceFrom, Thread;
    SequenceIsThread(w, Sequence(nodes), 0, input, Start(tick));
    assert nodes[0..] == nodes;
    ThreadShape(w, nodes, input, tick);
    NothingThen(Thread(w, nodes, input, tick), input, tick);
  }

  // A nested sequence that starts by polling behaves as its own nodes.
  lemma NestedThread(w: World, inner: seq<Node>, current: Value, tick: nat)
    requires inner != []
    ensures Thread(w, [Sequence(inner)], current, tick) == Thread(w, inner, current, tick)
  {
    hide Exec, Plus, Then, SequenceFrom;
    var o := Thread(w, inner, current, tick);
    SequenceObserved(w, inner, current, tick);
    ThreadShape(w, inner, current, tick);
    assert [Sequence(inner)][1..] == [];
    if w.cancelled(tick) {
    } else {
      assert Single(w, Sequence(inner), current, tick) == o;
      if GoesOn(o) {
        ThenNothing(o);
      }
    }
  }

  lemma EmptyNested(w: World, current: Value, tick: nat)
    ensures Thread(w, [Sequence([])], current, tick)
            == if w.cancelled(tick) then Observation(Gave(Null, false, Some(CancelledError), NO_BILL), tick, [], [])
               else Nothing(current, tick)
  {
    hide Plus, Then;
    SequenceObserved(w, [], current, tick);
    assert [Sequence([])][1..] == [];
    if !w.cancelled(tick) {
      ThenNothing(Nothing(current, tick));
    }
  }

  // ---------- flattening ----------

  // Nested sequences are spliced in, at every depth, unless they are empty.
  function Flat(nodes: seq<Node>): seq<Node>
    decreases nodes
  {
    if nodes == [] then []
    else (if nodes[0].Sequence? && nodes[0].nodes != [] then Flat(nodes[0].nodes) else [nodes[0]]) + Flat(nodes[1..])
  }

  lemma {:induction false} FlatIsFlat(nodes: seq<Node>)
    ensures forall i :: 0 <= i < |Flat(nodes)| && Flat(nodes)[i].Sequence? ==> Flat(nodes)[i].nodes == []
    ensures nodes != [] ==> Flat(nodes) != []
    decreases nodes
  {
    if nodes != [] {
      FlatIsFlat(nodes[1..]);
      if nodes[0].Sequence? && nodes[0].nodes != [] {
        FlatIsFlat(nodes[0].nodes);
      }
    }
  }

  lemma {:induction false} FlatThread(w: World, nodes: seq<Node>, current: Value, tick: nat)
    ensures Thread(w, Flat(nodes), current, tick) == Thread(w, nodes, current, tick)
    decreases nodes
  {
    hide Exec, Then, Single, Thread;
    if nodes != [] {
      var rest := nodes[1..];
      assert nodes == [nodes[0]] + rest;
      var head := if nodes[0].Sequence? && nodes[0].nodes != [] then Flat(nodes[0].nodes) else [nodes[0]];
      if nodes[0].Sequence? && nodes[0].nodes != [] {
        FlatThread(w, nodes[0].nodes, current, tick);
        NestedThread(w, nodes[0].nodes, current, tick);
      }
      var first := Thread(w, head, current, tick);
      assert first == Thread(w, [nodes[0]], current, tick);
      ThreadConcat(w, head, Flat(rest), current, tick);
      ThreadConcat(w, [nodes[0]], rest, current, tick);
      if GoesOn(first) {
        FlatThread(w, rest, first.end.output, first.tick);
      }
    }
  }

  // Flattening preserves output, success, error, tokens, cost and every leaf call,
  // for every input, failing position and cancellation point.
  lemma FlatteningPreservesMeaning(w: World, nodes: seq<Node>, input: Value, tick: nat)
    ensures Observe(Exec(w, Sequence(Flat(nodes)), input, tick)) == Observe(Exec(w, Sequence(nodes), input, tick))
  {
    hide Exec, Thread, Flat, Observe;
    SequenceObserved(w, nodes, input, tick);
    SequenceObserved(w, Flat(nodes), input, tick);
    FlatThread(w, nodes, input, tick);
  }

  // Splicing one nested sequence changes nothing, except when it is empty, nothing
  // follows it, and cancellation is requested once the nodes before it are through:
  // then the poll before the empty sequence is the only one left to notice.
  lemma SplicingExactly(w: World, a: seq<Node>, b: seq<Node>, c: seq<Node>, input: Value, tick: nat)
    ensures var prefix := Exec(w, Sequence(a), input, tick);
            Observe(Exec(w, Sequence(a + ([Sequence(b)] + c)), input, tick))
              == Observe(Exec(w, Sequence(a + (b + c)), input, tick))
            <==> b != [] || c != [] || !GoesOn(Observe(prefix)) || !w.cancelled(prefix.tick)
  {
    hide Exec, Thread, Then, Plus;
    SequenceObserved(w, a, input, tick);
    SequenceObserved(w, a + ([Sequence(b)] + c), input, tick);
    SequenceObserved(w, a + (b + c), input, tick);
    ThreadConcat(w, a, [Sequence(b)] + c, input, tick);
    ThreadConcat(w, a, b + c, input, tick);
    var first := Thread(w, a, input, tick);
    if GoesOn(first) {
      TailSpliced(w, b, c, first.end.output, first.tick);
      var nested := Thread(w, [Sequence(b)] + c, first.end.output, first.tick);
      var spliced := Thread(w, b + c, first.end.output, first.tick);
      ThenGoesOn(first, nested);
      ThenGoesOn(first, spliced);
    }
  }

  lemma TailSpliced(w: World, b: seq<Node>, c: seq<Node>, current: Value, tick: nat)
    ensures var nested := Thread(w, [Sequence(b)] + c, current, tick);
            var spliced := Thread(w, b + c, current, tick);
            if b != [] || c != [] || !w.cancelled(tick) then nested == spliced
            else !GoesOn(nested) && GoesOn(spliced)
  {
    hide Exec, Then, Plus, Single;
    ThreadConcat(w, [Sequence(b)], c, current, tick);
    ThreadConcat(w, b, c, current, tick);
    if b != [] {
      NestedThread(w, b, current, tick);
    } else {
      EmptyNested(w, current, tick);
      assert b + c == c;
      ThreadShape(w, c, current, tick);
      NothingThen(Thread(w, c, current, tick), current, tick);
      if w.cancelled(tick) && c != [] {
        CancelledThread(w, c, current, tick);
      }
    }
  }

  lemma CancelledThread(w: World, nodes: seq<Node>, current: Value, tick: nat)
    requires w.cancelled(tick) && nodes != []
    ensures Thread(w, nodes, current, tick)
            == Observation(Gave(Null, false, Some(CancelledError), NO_BILL), tick, [], [])
  {
    hide Exec, Then;
  }
}
