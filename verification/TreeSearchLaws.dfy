/** What the beam search returns: the first best candidate it ever scored; the best of
    the whole tree when the beam is wide enough; and how many evaluator runs it makes. */
module TreeSearchLaws {
  import opened Conservation
  import opened Exceptions
  import opened JsonValue
  import opened Modes
  import opened Ranking
  import opened Wrappers

  // `b` is the earliest of the highest-scored entries.
  ghost predicate IsFirstBest<T>(xs: seq<Scored<T>>, b: Scored<T>) {
    exists i :: 0 <= i < |xs| && xs[i] == b
                && (forall j :: 0 <= j < |xs| ==> xs[j].score <= b.score)
                && (forall j :: 0 <= j < i ==> xs[j].score < b.score)
  }

  lemma {:induction false} RankTop<T>(xs: seq<Scored<T>>)
    requires xs != []
    ensures IsFirstBest(xs, Rank(xs)[0])
  {
    if |xs| == 1 {
      assert Rank(xs[1..]) == [];
      assert Rank(xs)[0] == xs[0];
    } else {
      var rest := Rank(xs[1..]);
      RankTop(xs[1..]);
      var i :| 0 <= i < |xs[1..]| && xs[1..][i] == rest[0]
               && (forall j :: 0 <= j < |xs[1..]| ==> xs[1..][j].score <= rest[0].score)
               && (forall j :: 0 <= j < i ==> xs[1..][j].score < rest[0].score);
      assert forall j :: 0 < j < |xs| ==> xs[j] == xs[1..][j - 1];
      if xs[0].score >= rest[0].score {
        assert Rank(xs)[0] == xs[0];
      } else {
        assert Rank(xs)[0] == rest[0] == xs[i + 1];
      }
    }
  }

  lemma FirstBestConcat<T>(a: seq<Scored<T>>, x: Scored<T>, b: seq<Scored<T>>, y: Scored<T>)
    requires IsFirstBest(a, x) && IsFirstBest(b, y)
    ensures IsFirstBest(a + b, if y.score > x.score then y else x)
  {
    var i :| 0 <= i < |a| && a[i] == x && (forall j :: 0 <= j < |a| ==> a[j].score <= x.score)
             && (forall j :: 0 <= j < i ==> a[j].score < x.score);
    var k :| 0 <= k < |b| && b[k] == y && (forall j :: 0 <= j < |b| ==> b[j].score <= y.score)
             && (forall j :: 0 <= j < k ==> b[j].score < y.score);
    if y.score > x.score {
      assert (a + b)[|a| + k] == y;
    } else {
      assert (a + b)[i] == x;
    }
  }

  // ---------- the returned candidate ----------

  lemma ConcludeBest(best: Option<Scored<Value>>, acc: Acc)
    ensures var end := Conclude(best, acc).end;
            && end.Returned?
            && (end.outcome.success <==> best.Some?)
            && (best.Some? ==> end.outcome.output == best.value.item && end.outcome.score == Some(best.value.score))
  {
  }

  lemma {:induction false} ExpandHalts(w: World, node: Node, beam: seq<Value>, i: nat, candidates: seq<Value>, acc: Acc)
    requires node.TreeSearch? && i <= |beam|
    ensures var p := ExpandFrom(w, node, beam, i, candidates, acc);
            p.Halt? && p.ran.end.Returned? ==> !p.ran.end.outcome.success
    decreases |beam| - i
  {
    hide Exec, Push, Folded;
    if i < |beam| {
      var ran := Exec(w, node.expander, beam[i], acc.tick);
      if ran.end.Returned? && ran.end.outcome.success {
        ExpandHalts(w, node, beam, i + 1, candidates + Collected(ran.end.outcome.output), Push(acc, ran));
      }
    }
  }

  lemma {:induction false} ScoreHalts(
      w: World, node: Node, candidates: seq<Value>, i: nat, scored: seq<Scored<Value>>, acc: Acc)
    requires node.TreeSearch? && i <= |candidates|
    ensures var p := ScoreFrom(w, node, candidates, i, scored, acc);
            p.Halt? && p.ran.end.Returned? ==> !p.ran.end.outcome.success
    decreases |candidates| - i
  {
    hide Exec, Push, Folded;
    if i < |candidates| {
      var ran := Exec(w, node.evaluator, candidates[i], acc.tick);
      if ran.end.Returned? && ran.end.outcome.success && w.asFloat(ran.end.outcome.output).Some? {
        var entry := Scored(w.asFloat(ran.end.outcome.output).value, candidates[i]);
        ScoreHalts(w, node, candidates, i + 1, scored + [entry], Push(acc, ran));
      }
    }
  }

  lemma {:induction false} TreeBest(
      w: World, node: Node, depth: int, beam: seq<Value>, past: seq<Scored<Value>>,
      best: Option<Scored<Value>>, acc: Acc)
    requires node.TreeSearch? && node.beamWidth >= 1
    requires if best.None? then past == [] else IsFirstBest(past, best.value)
    ensures var s := TreeFrom(w, node, depth, beam, best, acc);
            s.ran.end.Returned? && s.ran.end.outcome.success ==>
              && s.ran.end.outcome.score.Some?
              && IsFirstBest(past + s.seen, Scored(s.ran.end.outcome.score.value, s.ran.end.outcome.output))
    decreases node.maxDepth + 1 - depth
  {
    hide ExpandFrom, ScoreFrom, Rank, Conclude, IsFirstBest, Items;
    assert past + [] == past;
    if depth > node.maxDepth {
      ConcludeBest(best, acc);
    } else {
      ExpandHalts(w, node, beam, 0, [], acc);
      var expanded := ExpandFrom(w, node, beam, 0, [], acc);
      if expanded.Proceed? {
        ConcludeBest(best, expanded.acc);
        if expanded.items != [] {
          ScoreHalts(w, node, expanded.items, 0, [], expanded.acc);
          ScoreCount(w, node, expanded.items, 0, [], expanded.acc);
          var p := ScoreFrom(w, node, expanded.items, 0, [], expanded.acc);
          if p.Proceed? {
            var top := Slice(Rank(p.items), node.beamWidth);
            RankTop(p.items);
            assert top[0] == Rank(p.items)[0];
            if best.Some? {
              FirstBestConcat(past, best.value, p.items, top[0]);
            } else {
              assert past + p.items == p.items;
            }
            TreeBest(w, node, depth + 1, Items(top), past + p.items, Better(best, top), p.acc);
            var rest := TreeFrom(w, node, depth + 1, Items(top), Better(best, top), p.acc);
            assert past + p.items + rest.seen == past + (p.items + rest.seen);
          }
        }
      }
    }
  }

  // A successful search returns the first best of all candidates it ever scored,
  // with that candidate's score, whatever the oracles answer.
  lemma SearchReturnsFirstBest(w: World, node: Node, input: Value, tick: nat)
    requires node.TreeSearch? && node.beamWidth >= 1
    ensures var s := TreeFrom(w, node, 1, [input], None, Start(tick));
            && s.ran == Exec(w, node, input, tick)
            && (s.ran.end.Returned? && s.ran.end.outcome.success ==>
                  && s.ran.end.outcome.score.Some?
                  && IsFirstBest(s.seen, Scored(s.ran.end.outcome.score.value, s.ran.end.outcome.output)))
  {
    TreeBest(w, node, 1, [input], [], None, Start(tick));
    var s := TreeFrom(w, node, 1, [input], None, Start(tick));
    assert [] + s.seen == s.seen;
  }

  // ---------- evaluator runs ----------

  // Every successful expansion yields at most `b` candidates.
  ghost predicate Branching(w: World, node: Node, b: nat)
    requires node.TreeSearch?
  {
    forall v: Value, t: nat :: var ran := Exec(w, node.expander, v, t);
      ran.end.Returned? && ran.end.outcome.success ==> |Collected(ran.end.outcome.output)| <= b
  }

  lemma {:induction false} ExpandCount(
      w: World, node: Node, b: nat, beam: seq<Value>, i: nat, candidates: seq<Value>, acc: Acc)
    requires node.TreeSearch? && i <= |beam| && Branching(w, node, b)
    ensures var p := ExpandFrom(w, node, beam, i, candidates, acc);
            p.Proceed? ==> |p.items| <= |candidates| + (|beam| - i) * b
    decreases |beam| - i
  {
    hide Exec, Push, Merged, Collected;
    if i < |beam| {
      var ran := Exec(w, node.expander, beam[i], acc.tick);
      if ran.end.Returned? && ran.end.outcome.success {
        ExpandCount(w, node, b, beam, i + 1, candidates + Collected(ran.end.outcome.output), Push(acc, ran));
        assert (|beam| - i) * b == (|beam| - (i + 1)) * b + b;
      }
    }
  }

  lemma TimesMonotone(a: nat, c: nat, b: nat)
    requires a <= c
    ensures a * b <= c * b
  {
  }

  lemma TimesAssociative(a: int, b: int, c: int)
    ensures a * (b * c) == a * b * c
  {
  }

  lemma {:induction false} TreeEvaluations(
      w: World, node: Node, b: nat, depth: int, beam: seq<Value>, best: Option<Scored<Value>>, acc: Acc)
    requires node.TreeSearch? && node.beamWidth >= 1 && Branching(w, node, b)
    ensures var further := node.maxDepth - depth;
            TreeFrom(w, node, depth, beam, best, acc).evaluations
            <= if further < 0 then 0 else |beam| * b + further * (node.beamWidth * b)
    decreases node.maxDepth + 1 - depth
  {
    hide ExpandFrom, ScoreFrom, Rank, Conclude, Items, Branching;
    if depth <= node.maxDepth {
      var further, cap := node.maxDepth - depth, node.beamWidth * b;
      assert further * cap >= 0 by { TimesMonotone(0, further, cap); }
      ExpandCount(w, node, b, beam, 0, [], acc);
      var expanded := ExpandFrom(w, node, beam, 0, [], acc);
      if expanded.Proceed? && expanded.items != [] {
        ScoreCount(w, node, expanded.items, 0, [], expanded.acc);
        var p := ScoreFrom(w, node, expanded.items, 0, [], expanded.acc);
        if p.Proceed? {
          var top := Slice(Rank(p.items), node.beamWidth);
          TreeEvaluations(w, node, b, depth + 1, Items(top), Better(best, top), p.acc);
          TimesMonotone(|top|, node.beamWidth, b);
          if further > 0 {
            assert further * cap == (further - 1) * cap + cap;
          }
        }
      }
    }
  }

  // At most b evaluations on the first level and beam_width * b on each later one.
  lemma EvaluationsBounded(w: World, node: Node, b: nat, input: Value, tick: nat)
    requires node.TreeSearch? && node.beamWidth >= 1 && node.maxDepth >= 1 && Branching(w, node, b)
    ensures TreeFrom(w, node, 1, [input], None, Start(tick)).evaluations
            <= b + (node.maxDepth - 1) * node.beamWidth * b
  {
    hide TreeFrom, Branching;
    TreeEvaluations(w, node, b, 1, [input], None, Start(tick));
    TimesAssociative(node.maxDepth - 1, node.beamWidth, b);
  }

  // ---------- exhaustive beams ----------

  function FlatMap(f: Value -> seq<Value>, vs: seq<Value>): seq<Value> {
    if vs == [] then [] else f(vs[0]) + FlatMap(f, vs[1..])
  }

  // The tree the expander describes, level by level; the root is level 0.
  function Level(f: Value -> seq<Value>, root: Value, depth: nat): seq<Value> {
    if depth == 0 then [root] else FlatMap(f, Level(f, root, depth - 1))
  }

  // Expander and evaluator compute plain functions and never fail.
  ghost predicate Computes(w: World, node: Node, f: Value -> seq<Value>, g: Value -> real)
    requires node.TreeSearch?
  {
    && (forall v: Value, t: nat :: var ran := Exec(w, node.expander, v, t);
          ran.end.Returned? && ran.end.outcome.success && Collected(ran.end.outcome.output) == f(v))
    && (forall v: Value, t: nat :: var ran := Exec(w, node.evaluator, v, t);
          ran.end.Returned? && ran.end.outcome.success && w.asFloat(ran.end.outcome.output) == Some(g(v)))
  }

  lemma {:induction false} FlatMapConcat(f: Value -> seq<Value>, xs: seq<Value>, ys: seq<Value>)
    ensures FlatMap(f, xs + ys) == FlatMap(f, xs) + FlatMap(f, ys)
  {
    if xs == [] {
      assert xs + ys == ys;
    } else {
      assert (xs + ys)[1..] == xs[1..] + ys;
      FlatMapConcat(f, xs[1..], ys);
    }
  }

  lemma RemoveFirst<T>(xs: seq<T>, ys: seq<T>) returns (i: nat)
    requires multiset(xs) == multiset(ys) && xs != []
    ensures i < |ys| && ys[i] == xs[0]
    ensures ys == ys[..i] + ([ys[i]] + ys[i + 1..])
    ensures multiset(xs[1..]) == multiset(ys[..i] + ys[i + 1..])
  {
    assert xs[0] in multiset(xs);
    i :| 0 <= i < |ys| && ys[i] == xs[0];
    var rest := ys[..i] + ys[i + 1..];
    assert ys == ys[..i] + ([ys[i]] + ys[i + 1..]);
    assert xs == [xs[0]] + xs[1..];
    assert multiset(ys) == multiset(rest) + multiset{xs[0]};
    assert multiset(xs) == multiset(xs[1..]) + multiset{xs[0]};
    assert multiset(xs[1..]) == multiset(xs) - multiset{xs[0]};
    assert multiset(rest) == multiset(ys) - multiset{xs[0]};
  }

  // Expanding a permutation of a level gives a permutation of the next.
  lemma {:induction false} FlatMapPermutes(f: Value -> seq<Value>, xs: seq<Value>, ys: seq<Value>)
    requires multiset(xs) == multiset(ys)
    ensures multiset(FlatMap(f, xs)) == multiset(FlatMap(f, ys))
    decreases |xs|
  {
    if xs == [] {
      assert |multiset(ys)| == 0;
      assert ys == [];
    } else {
      var i := RemoveFirst(xs, ys);
      FlatMapPermutes(f, xs[1..], ys[..i] + ys[i + 1..]);
      FlatMapConcat(f, ys[..i], ys[i + 1..]);
      FlatMapConcat(f, ys[..i], [ys[i]] + ys[i + 1..]);
      FlatMapConcat(f, [ys[i]], ys[i + 1..]);
      assert FlatMap(f, [ys[i]]) == f(ys[i]) by { assert [ys[i]][1..] == []; }
    }
  }

  lemma {:induction false} ExpandComputes(
      w: World, node: Node, f: Value -> seq<Value>, g: Value -> real,
      beam: seq<Value>, i: nat, candidates: seq<Value>, acc: Acc)
    requires node.TreeSearch? && i <= |beam| && Computes(w, node, f, g)
    ensures var p := ExpandFrom(w, node, beam, i, candidates, acc);
            p.Proceed? && p.items == candidates + FlatMap(f, beam[i..])
    decreases |beam| - i
  {
    hide Exec, Push, Merged, Collected;
    if i < |beam| {
      var ran := Exec(w, node.expander, beam[i], acc.tick);
      assert beam[i..][0] == beam[i] && beam[i..][1..] == beam[i + 1..];
      ExpandComputes(w, node, f, g, beam, i + 1, candidates + f(beam[i]), Push(acc, ran));
      assert candidates + f(beam[i]) + FlatMap(f, beam[i + 1..])
          == candidates + (f(beam[i]) + FlatMap(f, beam[i + 1..]));
    }
  }

  function Graded(g: Value -> real, vs: seq<Value>): (r: seq<Scored<Value>>)
    ensures |r| == |vs| && forall i :: 0 <= i < |vs| ==> r[i] == Scored(g(vs[i]), vs[i])
  {
    if vs == [] then [] else [Scored(g(vs[0]), vs[0])] + Graded(g, vs[1..])
  }

  lemma {:induction false} ScoreComputes(
      w: World, node: Node, f: Value -> seq<Value>, g: Value -> real,
      candidates: seq<Value>, i: nat, scored: seq<Scored<Value>>, acc: Acc)
    requires node.TreeSearch? && i <= |candidates| && Computes(w, node, f, g)
    ensures var p := ScoreFrom(w, node, candidates, i, scored, acc);
            p.Proceed? && p.items == scored + Graded(g, candidates[i..])
    decreases |candidates| - i
  {
    hide Exec, Push, Merged, Collected;
    if i < |candidates| {
      var ran := Exec(w, node.evaluator, candidates[i], acc.tick);
      var entry := Scored(g(candidates[i]), candidates[i]);
      assert candidates[i..][0] == candidates[i] && candidates[i..][1..] == candidates[i + 1..];
      ScoreComputes(w, node, f, g, candidates, i + 1, scored + [entry], Push(acc, ran));
      assert scored + [entry] + Graded(g, candidates[i + 1..]) == scored + ([entry] + Graded(g, candidates[i + 1..]));
    }
  }

  lemma ItemsConcat(a: seq<Scored<Value>>, b: seq<Scored<Value>>)
    ensures Items(a + b) == Items(a) + Items(b)
  {
  }

  lemma {:induction false} ItemsPermute(a: seq<Scored<Value>>, b: seq<Scored<Value>>)
    requires multiset(a) == multiset(b)
    ensures multiset(Items(a)) == multiset(Items(b))
    decreases |a|
  {
    hide Items;
    if a == [] {
      assert |multiset(b)| == 0;
      assert b == [];
    } else {
      var i := RemoveFirst(a, b);
      var rest := b[..i] + b[i + 1..];
      ItemsPermute(a[1..], rest);
      ItemsConcat(b[..i], b[i + 1..]);
      ItemsConcat(b[..i], [b[i]] + b[i + 1..]);
      ItemsConcat([b[i]], b[i + 1..]);
      ItemsConcat([a[0]], a[1..]);
      assert a == [a[0]] + a[1..];
    }
  }

  lemma RankedGrades(g: Value -> real, vs: seq<Value>)
    ensures multiset(Items(Rank(Graded(g, vs)))) == multiset(vs)
  {
    RankIsStable(Graded(g, vs));
    ItemsPermute(Rank(Graded(g, vs)), Graded(g, vs));
    assert Items(Graded(g, vs)) == vs;
  }

  // The beam is at least as wide as every level it has to hold.
  ghost predicate WideEnough(node: Node, f: Value -> seq<Value>, root: Value)
    requires node.TreeSearch?
  {
    forall d: nat :: 1 <= d <= node.maxDepth ==> |Level(f, root, d)| <= node.beamWidth
  }

  ghost predicate Covers(seen: seq<Scored<Value>>, f: Value -> seq<Value>, g: Value -> real,
                         root: Value, from: nat, to: int) {
    && (forall d: nat, v :: from <= d <= to && v in Level(f, root, d) ==> Scored(g(v), v) in seen)
    && (forall x :: x in seen ==>
          x.score == g(x.item) && exists d: nat :: from <= d <= to && x.item in Level(f, root, d))
  }

  lemma {:induction false} EmptyBelow(f: Value -> seq<Value>, root: Value, from: nat, d: nat)
    requires Level(f, root, from) == [] && from <= d
    ensures Level(f, root, d) == []
    decreases d
  {
    if d > from {
      EmptyBelow(f, root, from, d - 1);
    }
  }

  // One level: the candidates are the next level, all scored and none cut.
  lemma LevelCovered(
      w: World, node: Node, f: Value -> seq<Value>, g: Value -> real, root: Value,
      depth: nat, beam: seq<Value>, acc: Acc)
    requires node.TreeSearch? && 1 <= depth <= node.maxDepth
    requires Computes(w, node, f, g) && WideEnough(node, f, root)
    requires multiset(beam) == multiset(Level(f, root, depth - 1))
    ensures var expanded := ExpandFrom(w, node, beam, 0, [], acc);
            && expanded.Proceed?
            && multiset(expanded.items) == multiset(Level(f, root, depth))
            && var p := ScoreFrom(w, node, expanded.items, 0, [], expanded.acc);
               && p.Proceed?
               && p.items == Graded(g, expanded.items)
               && Slice(Rank(p.items), node.beamWidth) == Rank(p.items)
               && multiset(Items(Rank(p.items))) == multiset(Level(f, root, depth))
  {
    hide ExpandFrom, ScoreFrom, Rank, Items, Computes, WideEnough, FlatMap;
    ExpandComputes(w, node, f, g, beam, 0, [], acc);
    assert beam[0..] == beam && [] + FlatMap(f, beam) == FlatMap(f, beam);
    var expanded := ExpandFrom(w, node, beam, 0, [], acc);
    FlatMapPermutes(f, beam, Level(f, root, depth - 1));
    ScoreComputes(w, node, f, g, expanded.items, 0, [], expanded.acc);
    var items := expanded.items;
    assert items[0..] == items && [] + Graded(g, items) == Graded(g, items);
    SameSize(items, Level(f, root, depth));
    InsideBeam(node, f, root, depth);
    RankedGrades(g, items);
  }

  lemma {:induction false} TreeCovers(
      w: World, node: Node, f: Value -> seq<Value>, g: Value -> real, root: Value,
      depth: nat, beam: seq<Value>, best: Option<Scored<Value>>, acc: Acc)
    requires node.TreeSearch? && node.beamWidth >= 1 && depth >= 1
    requires Computes(w, node, f, g) && WideEnough(node, f, root)
    requires multiset(beam) == multiset(Level(f, root, depth - 1))
    ensures var s := TreeFrom(w, node, depth, beam, best, acc);
            && Covers(s.seen, f, g, root, depth, node.maxDepth)
            && s.ran.end.Returned?
            && (s.ran.end.outcome.success <==> best.Some? || s.seen != [])
    decreases node.maxDepth + 1 - depth
  {
    hide ExpandFrom, ScoreFrom, Rank, Conclude, Items, Computes, Covers, WideEnough, Level, Slice, Graded;
    if depth > node.maxDepth {
      ConcludeBest(best, acc);
      CoversNone(f, g, root, depth, node.maxDepth);
    } else {
      LevelCovered(w, node, f, g, root, depth, beam, acc);
      var expanded := ExpandFrom(w, node, beam, 0, [], acc);
      var items := expanded.items;
      if items == [] {
        ConcludeBest(best, expanded.acc);
        SameSize(items, Level(f, root, depth));
        CoversEmpty(f, g, root, depth, node.maxDepth);
      } else {
        var p := ScoreFrom(w, node, items, 0, [], expanded.acc);
        var top := Rank(p.items);
        TreeCovers(w, node, f, g, root, depth + 1, Items(top), Better(best, top), p.acc);
        var rest := TreeFrom(w, node, depth + 1, Items(top), Better(best, top), p.acc);
        CoversMore(p.items, items, rest.seen, f, g, root, depth, node.maxDepth);
      }
    }
  }

  lemma SameSize(a: seq<Value>, b: seq<Value>)
    requires multiset(a) == multiset(b)
    ensures |a| == |b|
  {
    assert |multiset(a)| == |a| && |multiset(b)| == |b|;
  }

  lemma InsideBeam(node: Node, f: Value -> seq<Value>, root: Value, d: nat)
    requires node.TreeSearch? && WideEnough(node, f, root) && 1 <= d <= node.maxDepth
    ensures |Level(f, root, d)| <= node.beamWidth
  {
  }

  lemma CoversNone(f: Value -> seq<Value>, g: Value -> real, root: Value, from: nat, to: int)
    requires from > to
    ensures Covers([], f, g, root, from, to)
  {
  }

  lemma CoversEmpty(f: Value -> seq<Value>, g: Value -> real, root: Value, from: nat, to: int)
    requires Level(f, root, from) == []
    ensures Covers([], f, g, root, from, to)
  {
    forall d: nat | from <= d <= to ensures Level(f, root, d) == [] {
      EmptyBelow(f, root, from, d);
    }
  }

  lemma CoversMore(
      graded: seq<Scored<Value>>, items: seq<Value>, later: seq<Scored<Value>>,
      f: Value -> seq<Value>, g: Value -> real, root: Value, from: nat, to: int)
    requires from <= to && graded == Graded(g, items)
    requires multiset(items) == multiset(Level(f, root, from))
    requires Covers(later, f, g, root, from + 1, to)
    ensures Covers(graded + later, f, g, root, from, to)
  {
    hide Level, Graded;
    forall d: nat, v | from <= d <= to && v in Level(f, root, d) ensures Scored(g(v), v) in graded + later {
      if d == from {
        assert v in multiset(items);
        var i :| 0 <= i < |items| && items[i] == v;
        assert graded[i] == Scored(g(v), v);
      }
    }
    forall x | x in graded + later
      ensures x.score == g(x.item) && exists d: nat :: from <= d <= to && x.item in Level(f, root, d)
    {
      if x in graded {
        var i :| 0 <= i < |graded| && graded[i] == x;
        assert x.item == items[i];
        assert items[i] in multiset(items);
        assert x.item in multiset(Level(f, root, from));
        assert x.item in Level(f, root, from);
      } else {
        var d: nat :| from + 1 <= d <= to && x.item in Level(f, root, d);
        assert from <= d;
      }
    }
  }

  // With a beam as wide as every level, the search finds the optimum of the whole tree
  // down to `max_depth`, and fails exactly when the root has no candidates at all.
  lemma WideBeamFindsOptimum(w: World, node: Node, f: Value -> seq<Value>, g: Value -> real, root: Value, tick: nat)
    requires node.TreeSearch? && node.beamWidth >= 1 && node.maxDepth >= 1
    requires Computes(w, node, f, g) && WideEnough(node, f, root)
    ensures var end := Exec(w, node, root, tick).end;
            && end.Returned?
            && (end.outcome.success <==> f(root) != [])
            && (end.outcome.success ==>
                  && end.outcome.score == Some(g(end.outcome.output))
                  && (exists d: nat :: 1 <= d <= node.maxDepth && end.outcome.output in Level(f, root, d))
                  && (forall d: nat, v :: 1 <= d <= node.maxDepth && v in Level(f, root, d) ==>
                        g(v) <= g(end.outcome.output)))
  {
    hide Exec, TreeFrom, Computes, WideEnough;
    var s := TreeFrom(w, node, 1, [root], None, Start(tick));
    assert Level(f, root, 0) == [root];
    TreeCovers(w, node, f, g, root, 1, [root], None, Start(tick));
    SearchReturnsFirstBest(w, node, root, tick);
    assert [root][1..] == [];
    assert Level(f, root, 1) == FlatMap(f, [root]) == f(root);
    if f(root) == [] {
      EmptySeen(s.seen, f, g, root, node.maxDepth);
    } else {
      assert f(root)[0] in Level(f, root, 1);
      assert Scored(g(f(root)[0]), f(root)[0]) in s.seen;
      var o := s.ran.end.outcome;
      var b := Scored(o.score.value, o.output);
      assert b in s.seen;
      forall d: nat, v | 1 <= d <= node.maxDepth && v in Level(f, root, d) ensures g(v) <= g(o.output) {
        assert Scored(g(v), v) in s.seen;
      }
    }
  }

  lemma EmptySeen(seen: seq<Scored<Value>>, f: Value -> seq<Value>, g: Value -> real, root: Value, to: int)
    requires Covers(seen, f, g, root, 1, to) && Level(f, root, 1) == []
    ensures seen == []
  {
    if seen != [] {
      assert seen[0] in seen;
      var d: nat :| 1 <= d <= to && seen[0].item in Level(f, root, d);
      EmptyBelow(f, root, 1, d);
    }
  }

  // ---------- beams that keep nothing ----------

  // A slice of `n` candidates to this width is empty.
  predicate KeepsNone(width: int, n: nat) {
    n == 0 || width == 0 || (width < 0 && n <= -width)
  }

  lemma SliceKeeps<T>(s: seq<T>, width: int)
    ensures Slice(s, width) == [] <==> KeepsNone(width, |s|)
  {
  }

  // Once a candidate has been found the search cannot raise any more.
  lemma {:induction false} OnceFoundReturns(
      w: World, node: Node, f: Value -> seq<Value>, g: Value -> real,
      depth: int, beam: seq<Value>, best: Option<Scored<Value>>, acc: Acc)
    requires node.TreeSearch? && Computes(w, node, f, g) && best.Some?
    ensures TreeFrom(w, node, depth, beam, best, acc).ran.end.Returned?
    decreases node.maxDepth + 1 - depth
  {
    hide Computes, ExpandFrom, ScoreFrom, Rank, Items;
    if depth <= node.maxDepth {
      ExpandComputes(w, node, f, g, beam, 0, [], acc);
      var expanded := ExpandFrom(w, node, beam, 0, [], acc);
      if expanded.items != [] {
        ScoreComputes(w, node, f, g, expanded.items, 0, [], expanded.acc);
        var scored := ScoreFrom(w, node, expanded.items, 0, [], expanded.acc);
        var top := Slice(Rank(scored.items), node.beamWidth);
        OnceFoundReturns(w, node, f, g, depth + 1, Items(top), Better(best, top), scored.acc);
      }
    }
  }

  // A search whose expander and evaluator never fail raises, at `top[0]`, exactly when
  // the root has candidates and the width keeps none of them; else it returns.
  lemma BeamRaisesExactly(w: World, node: Node, f: Value -> seq<Value>, g: Value -> real, root: Value, tick: nat)
    requires node.TreeSearch? && node.maxDepth >= 1 && Computes(w, node, f, g)
    ensures var end := Exec(w, node, root, tick).end;
            && (end == Threw(IndexError) <==> f(root) != [] && KeepsNone(node.beamWidth, |f(root)|))
            && (end.Threw? ==> end.error == IndexError)
  {
    hide Computes, ExpandFrom, ScoreFrom, Rank, Items, KeepsNone, Slice, Conclude;
    ExpandComputes(w, node, f, g, [root], 0, [], Start(tick));
    assert [root][0..] == [root] && [root][1..] == [];
    assert FlatMap(f, [root]) == f(root) + FlatMap(f, []);
    var expanded := ExpandFrom(w, node, [root], 0, [], Start(tick));
    assert expanded.items == f(root);
    if f(root) == [] {
      ConcludeBest(None, expanded.acc);
    } else {
      ScoreComputes(w, node, f, g, expanded.items, 0, [], expanded.acc);
      var scored := ScoreFrom(w, node, expanded.items, 0, [], expanded.acc);
      assert expanded.items[0..] == expanded.items;
      var top := Slice(Rank(scored.items), node.beamWidth);
      SliceKeeps(Rank(scored.items), node.beamWidth);
      if top != [] {
        OnceFoundReturns(w, node, f, g, 2, Items(top), Better(None, top), scored.acc);
      }
    }
  }
}
