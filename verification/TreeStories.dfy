/** What a beam search does (`runtime/modes/tree_search.py`), told level by level: which
    values are expanded, which candidates are scored, which are kept, and how it ends. */
module TreeStories {
  import opened JsonValue
  import opened Lists
  import opened Modes
  import opened ModeStories
  import opened Ranking
  import opened TreeSearchLaws
  import opened Wrappers

  // One level gone through: the values expanded, the candidates they gave, what each
  // scored, and the best of them, to be expanded next.
  datatype Level = Level(
    beam: seq<Value>,
    expansions: seq<Visit>,
    candidates: seq<Value>,
    evaluations: seq<Visit>,
    scored: seq<Scored<Value>>,
    kept: seq<Scored<Value>>)

  // Visits of one node, one for each of the first values, in order.
  ghost predicate VisitsEach(node: Node, values: seq<Value>, visits: seq<Visit>) {
    && |visits| <= |values|
    && forall i :: 0 <= i < |visits| ==> visits[i].node == node && visits[i].input == values[i]
  }

  ghost predicate AllSucceed(visits: seq<Visit>) {
    forall i :: 0 <= i < |visits| ==> Succeeded(visits[i])
  }

  // An expander's answer: a list of candidates, or anything else as the one candidate.
  ghost predicate Offers(v: Visit, part: seq<Value>) {
    if Given(v).Array? then part == Given(v).items else part == [Given(v)]
  }

  ghost predicate OffersInTurn(expansions: seq<Visit>, parts: seq<seq<Value>>, candidates: seq<Value>) {
    && Strung(parts, candidates) && |parts| == |expansions|
    && forall i :: 0 <= i < |parts| ==> Offers(expansions[i], parts[i])
  }

  // Every value of the beam is expanded; the candidates are what the expansions offer.
  ghost predicate Expands(node: Node, beam: seq<Value>, expansions: seq<Visit>, candidates: seq<Value>)
    requires node.TreeSearch?
  {
    && VisitsEach(node.expander, beam, expansions) && |expansions| == |beam| && AllSucceed(expansions)
    && exists parts :: OffersInTurn(expansions, parts, candidates)
  }

  // The first candidates are scored by what the evaluator says of each, as a number.
  ghost predicate Scores(
      w: World, node: Node, candidates: seq<Value>, evaluations: seq<Visit>, scored: seq<Scored<Value>>)
    requires node.TreeSearch?
  {
    && VisitsEach(node.evaluator, candidates, evaluations) && |scored| == |evaluations|
    && forall i :: 0 <= i < |scored| ==>
         && Succeeded(evaluations[i]) && w.asFloat(Given(evaluations[i])) == Some(scored[i].score)
         && scored[i].item == candidates[i]
  }

  // How many of `n` a slice `[:width]` keeps: a negative width counts from the end.
  function KeptOf(n: nat, width: int): nat {
    if width >= n then n
    else if width >= 0 then width
    else if n + width >= 0 then n + width
    else 0
  }

  // The best are kept: the front of the one stable ranking of all that were scored.
  ghost predicate Keeps(scored: seq<Scored<Value>>, width: int, kept: seq<Scored<Value>>) {
    exists ranking :: IsStableRanking(scored, ranking) && |ranking| == |scored|
                      && kept == ranking[..KeptOf(|ranking|, width)]
  }

  ghost predicate LevelStory(w: World, node: Node, level: Level)
    requires node.TreeSearch?
  {
    && Expands(node, level.beam, level.expansions, level.candidates) && level.candidates != []
    && Scores(w, node, level.candidates, level.evaluations, level.scored)
    && |level.scored| == |level.candidates|
    && Keeps(level.scored, node.beamWidth, level.kept)
  }

  // The beam of level `i`: the input alone, or the items kept the level before.
  ghost predicate IsBeam(input: Value, levels: seq<Level>, i: nat, beam: seq<Value>)
    requires i <= |levels|
  {
    if i == 0 then beam == [input]
    else
      var kept := levels[i - 1].kept;
      |beam| == |kept| && forall j :: 0 <= j < |kept| ==> beam[j] == kept[j].item
  }

  ghost predicate LevelsStory(w: World, node: Node, input: Value, levels: seq<Level>)
    requires node.TreeSearch?
  {
    forall i :: 0 <= i < |levels| ==>
      LevelStory(w, node, levels[i]) && IsBeam(input, levels, i, levels[i].beam) && i < node.maxDepth
  }

  function LevelVisits(levels: seq<Level>): seq<Visit> {
    if levels == [] then []
    else
      var last := levels[|levels| - 1];
      LevelVisits(levels[..|levels| - 1]) + last.expansions + last.evaluations
  }

  // All that was ever kept, level by level.
  function AllKept(levels: seq<Level>): seq<Scored<Value>> {
    if levels == [] then [] else AllKept(levels[..|levels| - 1]) + levels[|levels| - 1].kept
  }

  // The search is over: the first best of all that was kept, or nothing to return.
  ghost predicate Concludes(levels: seq<Level>, visits: seq<Visit>, ran: Ran) {
    if levels == [] then Fails(ran, visits, ExecutionFailed("tree search produced no candidates"), Null)
    else
      && ran.end.Returned? && Replies(ran, visits, true, None, ran.end.outcome.output)
      && ran.end.outcome.score.Some?
      && IsFirstBest(AllKept(levels), Scored(ran.end.outcome.score.value, ran.end.outcome.output))
  }

  // A visit that ends the search: it raised, or it failed.
  ghost predicate Stops(phase: seq<Visit>, visits: seq<Visit>, otherwise: string, ran: Ran)
    requires phase != []
  {
    if Last(phase).ran.end.Threw? then ran.end == Last(phase).ran.end
    else Failed(Last(phase)) && Fails(ran, visits, Reason(Last(phase), otherwise), Null)
  }

  // A whole search: levels gone through, then the expansions and evaluations of one that
  // was not.
  ghost predicate TreeStory(w: World, node: Node, input: Value, levels: seq<Level>, beam: seq<Value>,
                            expansions: seq<Visit>, candidates: seq<Value>, evaluations: seq<Visit>, ran: Ran)
    requires node.TreeSearch?
  {
    var visits := LevelVisits(levels) + expansions + evaluations;
    && LevelsStory(w, node, input, levels) && IsBeam(input, levels, |levels|, beam)
    && (|levels| > 1 ==> levels[0].kept != [])
    && if |levels| == 1 && levels[0].kept == [] then
         expansions == [] && evaluations == [] && ran.end == Threw(IndexError)
       else if |levels| >= node.maxDepth then
         expansions == [] && evaluations == [] && Concludes(levels, visits, ran)
       else if ExpansionStops(node, beam, expansions) then
         evaluations == [] && Stops(expansions, visits, "expander failed", ran)
       else
         && Expands(node, beam, expansions, candidates)
         && if candidates == [] then evaluations == [] && Concludes(levels, visits, ran)
            else EvaluationStops(w, node, candidates, evaluations, visits, ran)
  }

  ghost predicate ExpansionStops(node: Node, beam: seq<Value>, expansions: seq<Visit>)
    requires node.TreeSearch?
  {
    && expansions != [] && VisitsEach(node.expander, beam, expansions)
    && AllSucceed(expansions[..|expansions| - 1]) && !Succeeded(Last(expansions))
  }

  ghost predicate ScoresAll(w: World, node: Node, candidates: seq<Value>, evaluations: seq<Visit>)
    requires node.TreeSearch?
  {
    exists scored :: Scores(w, node, candidates, evaluations, scored)
  }

  // The last evaluation raised, failed, or did not give a number.
  ghost predicate EvaluationStops(
      w: World, node: Node, candidates: seq<Value>, evaluations: seq<Visit>, visits: seq<Visit>, ran: Ran)
    requires node.TreeSearch?
  {
    && evaluations != [] && VisitsEach(node.evaluator, candidates, evaluations)
    && ScoresAll(w, node, candidates, evaluations[..|evaluations| - 1])
    && if Succeeded(Last(evaluations)) then
         && w.asFloat(Given(Last(evaluations))) == None
         && Fails(ran, visits, ExecutionFailed("evaluator did not return a number"), Null)
       else Stops(evaluations, visits, "evaluator failed", ran)
  }

  // ---------- telling it ----------

  lemma {:induction false} ExpandTells(
      w: World, node: Node, beam: seq<Value>, i: nat, candidates: seq<Value>, acc: Acc,
      tick: nat, past: seq<Visit>, done: seq<Visit>, parts: seq<seq<Value>>) returns (expansions: seq<Visit>)
    requires node.TreeSearch? && i == |done| <= |beam| && Told(w, tick, past + done, acc)
    requires VisitsEach(node.expander, beam, done) && AllSucceed(done) && OffersInTurn(done, parts, candidates)
    ensures match ExpandFrom(w, node, beam, i, candidates, acc)
            case Proceed(items, after, _) =>
              Told(w, tick, past + expansions, after) && Expands(node, beam, expansions, items)
            case Halt(ran, _) =>
              && Makes(w, tick, past + expansions, ran) && ExpansionStops(node, beam, expansions)
              && Stops(expansions, past + expansions, "expander failed", ran)
    decreases |beam| - i
  {
    hide Exec, Told, Makes, Finish, Push, Abort, Reports, Strung;
    expansions := done;
    if i < |beam| {
      var v := Visit(node.expander, beam[i], acc.tick, Exec(w, node.expander, beam[i], acc.tick));
      expansions := done + [v];
      assert past + done + [v] == past + expansions && expansions[..i] == done;
      if v.ran.end.Threw? {
        TellAborted(w, tick, past + done, acc, v);
        return;
      }
      TellReturned(w, tick, past + done, acc, v);
      var next, outcome := Push(acc, v.ran), v.ran.end.outcome;
      if outcome.success {
        var part := Collected(outcome.output);
        StrungSnoc(parts, candidates, part);
        expansions := ExpandTells(w, node, beam, i + 1, candidates + part, next,
          tick, past, expansions, parts + [part]);
      } else {
        TellFinished(w, tick, past + expansions, next,
          Failure(ErrorOr(outcome.error, "expander failed"), Null, next.children));
      }
    }
  }

  lemma {:induction false} ScoreTells(
      w: World, node: Node, candidates: seq<Value>, i: nat, scored: seq<Scored<Value>>, acc: Acc,
      tick: nat, past: seq<Visit>, done: seq<Visit>) returns (evaluations: seq<Visit>)
    requires node.TreeSearch? && i == |done| <= |candidates| && Told(w, tick, past + done, acc)
    requires Scores(w, node, candidates, done, scored)
    ensures match ScoreFrom(w, node, candidates, i, scored, acc)
            case Proceed(all, after, _) =>
              && Told(w, tick, past + evaluations, after) && |all| == |candidates|
              && Scores(w, node, candidates, evaluations, all)
            case Halt(ran, _) =>
              && Makes(w, tick, past + evaluations, ran)
              && EvaluationStops(w, node, candidates, evaluations, past + evaluations, ran)
    decreases |candidates| - i
  {
    hide Exec, Told, Makes, Finish, Push, Abort, Reports;
    evaluations := done;
    if i < |candidates| {
      var c := candidates[i];
      var v := Visit(node.evaluator, c, acc.tick, Exec(w, node.evaluator, c, acc.tick));
      evaluations := done + [v];
      assert past + done + [v] == past + evaluations && evaluations[..i] == done;
      assert ScoresAll(w, node, candidates, done);
      if v.ran.end.Threw? {
        TellAborted(w, tick, past + done, acc, v);
        return;
      }
      TellReturned(w, tick, past + done, acc, v);
      var next, outcome := Push(acc, v.ran), v.ran.end.outcome;
      var score := w.asFloat(outcome.output);
      if !outcome.success {
        TellFinished(w, tick, past + evaluations, next,
          Failure(ErrorOr(outcome.error, "evaluator failed"), Null, next.children));
      } else if score.None? {
        TellFinished(w, tick, past + evaluations, next,
          Failure(ExecutionFailed("evaluator did not return a number"), Null, next.children));
      } else {
        evaluations := ScoreTells(w, node, candidates, i + 1, scored + [Scored(score.value, c)], next,
          tick, past, evaluations);
      }
    }
  }

  lemma CutIsKept(scored: seq<Scored<Value>>, width: int)
    ensures Keeps(scored, width, Slice(Rank(scored), width))
    ensures var kept := Slice(Rank(scored), width); kept != [] ==> IsFirstBest(kept, kept[0])
  {
    RankIsStable(scored);
    var ranking, kept := Rank(scored), Slice(Rank(scored), width);
    assert kept == ranking[..KeptOf(|ranking|, width)];
    if kept != [] {
      forall j | 0 <= j < |kept| ensures kept[j].score <= kept[0].score {
        if j > 0 { assert ranking[j] in ranking[1..]; }
      }
    }
  }

  lemma BestOfKept(levels: seq<Level>, best: Option<Scored<Value>>, level: Level)
    requires if best.None? then levels == [] else levels != [] && IsFirstBest(AllKept(levels), best.value)
    requires level.kept != [] ==> IsFirstBest(level.kept, level.kept[0])
    requires best.None? ==> level.kept != []
    ensures IsFirstBest(AllKept(levels + [level]), Better(best, level.kept).value)
  {
    hide IsFirstBest;
    var more := levels + [level];
    assert more[..|levels|] == levels;
    assert AllKept(more) == AllKept(levels) + level.kept;
    if best.None? {
      assert AllKept(more) == level.kept;
    } else if level.kept == [] {
      assert AllKept(more) == AllKept(levels);
    } else {
      FirstBestConcat(AllKept(levels), best.value, level.kept, level.kept[0]);
    }
  }

  lemma ConcludeTells(
      w: World, tick: nat, levels: seq<Level>, visits: seq<Visit>, best: Option<Scored<Value>>, acc: Acc)
    requires Told(w, tick, visits, acc)
    requires if best.None? then levels == [] else levels != [] && IsFirstBest(AllKept(levels), best.value)
    ensures Makes(w, tick, visits, Conclude(best, acc)) && Concludes(levels, visits, Conclude(best, acc))
  {
    hide Told, Makes, Reports, Folded;
    if best.None? {
      TellFinished(w, tick, visits, acc,
        Failure(ExecutionFailed("tree search produced no candidates"), Null, acc.children));
    } else {
      TellFinished(w, tick, visits, acc,
        Success(best.value.item, acc.children).(score := Some(best.value.score)));
    }
  }

  lemma CrashTells(w: World, tick: nat, visits: seq<Visit>, acc: Acc)
    requires Told(w, tick, visits, acc)
    ensures Makes(w, tick, visits, Crash(acc)) && Crash(acc).end == Threw(IndexError)
  {
    hide Runs;
  }

  lemma BeamStays(input: Value, levels: seq<Level>, level: Level, i: nat, beam: seq<Value>)
    requires i <= |levels| && IsBeam(input, levels, i, beam)
    ensures IsBeam(input, levels + [level], i, beam)
  {
    assert i > 0 ==> (levels + [level])[i - 1] == levels[i - 1];
  }

  lemma KeptIsBeam(input: Value, levels: seq<Level>, level: Level)
    ensures IsBeam(input, levels + [level], |levels| + 1, Items(level.kept))
  {
  }

  lemma LevelsGrow(w: World, node: Node, input: Value, levels: seq<Level>, level: Level)
    requires node.TreeSearch? && LevelsStory(w, node, input, levels) && LevelStory(w, node, level)
    requires IsBeam(input, levels, |levels|, level.beam) && |levels| < node.maxDepth
    ensures LevelsStory(w, node, input, levels + [level])
    ensures IsBeam(input, levels + [level], |levels| + 1, Items(level.kept))
  {
    hide LevelStory, IsBeam;
    var more := levels + [level];
    forall i | 0 <= i < |more|
      ensures LevelStory(w, node, more[i]) && IsBeam(input, more, i, more[i].beam) && i < node.maxDepth
    {
      assert i < |levels| ==> more[i] == levels[i];
      BeamStays(input, levels, level, i, more[i].beam);
    }
    KeptIsBeam(input, levels, level);
  }

  lemma VisitsGrow(levels: seq<Level>, level: Level)
    ensures LevelVisits(levels + [level]) == LevelVisits(levels) + level.expansions + level.evaluations
  {
    assert (levels + [level])[..|levels|] == levels;
  }

  lemma {:induction false} TreeTells(
      w: World, node: Node, depth: int, beam: seq<Value>, best: Option<Scored<Value>>, acc: Acc,
      input: Value, tick: nat, past: seq<Level>)
    returns (levels: seq<Level>, final: seq<Value>, expansions: seq<Visit>, candidates: seq<Value>,
             evaluations: seq<Visit>)
    requires node.TreeSearch? && |past| == depth - 1 && Told(w, tick, LevelVisits(past), acc)
    requires LevelsStory(w, node, input, past) && IsBeam(input, past, |past|, beam)
    requires past != [] ==> past[0].kept != []
    requires if best.None? then past == [] else past != [] && IsFirstBest(AllKept(past), best.value)
    ensures var ran := TreeFrom(w, node, depth, beam, best, acc).ran;
            && TreeStory(w, node, input, levels, final, expansions, candidates, evaluations, ran)
            && Makes(w, tick, LevelVisits(levels) + expansions + evaluations, ran)
    decreases node.maxDepth + 1 - depth
  {
    hide Told, Makes, ExpandFrom, ScoreFrom, Conclude, IsFirstBest, LevelsStory, IsBeam, Expands, Scores, Concludes;
    hide Stops, EvaluationStops, ExpansionStops, Keeps, Items, AllKept, LevelVisits;
    levels, final, expansions, candidates, evaluations := past, beam, [], [], [];
    var visits := LevelVisits(past);
    assert visits + [] + [] == visits && visits + [] == visits;
    if depth > node.maxDepth {
      ConcludeTells(w, tick, past, visits, best, acc);
      return;
    }
    StringsNothing();
    expansions := ExpandTells(w, node, beam, 0, [], acc, tick, visits, [], []);
    assert visits + expansions + [] == visits + expansions;
    var expanded := ExpandFrom(w, node, beam, 0, [], acc);
    if expanded.Halt? {
      return;
    }
    candidates := expanded.items;
    AllExpanded(node, beam, expansions, candidates);
    if candidates == [] {
      ConcludeTells(w, tick, past, visits + expansions, best, expanded.acc);
      return;
    }
    ScoresNone(w, node, candidates);
    assert visits + expansions + [] == visits + expansions;
    evaluations := ScoreTells(w, node, candidates, 0, [], expanded.acc, tick, visits + expansions, []);
    var scoring := ScoreFrom(w, node, candidates, 0, [], expanded.acc);
    if scoring.Halt? {
      return;
    }
    var top := Slice(Rank(scoring.items), node.beamWidth);
    CutIsKept(scoring.items, node.beamWidth);
    var level := Level(beam, expansions, candidates, evaluations, scoring.items, top);
    assert LevelStory(w, node, level);
    LevelsGrow(w, node, input, past, level);
    VisitsGrow(past, level);
    levels, expansions, candidates, evaluations := past + [level], [], [], [];
    assert LevelVisits(levels) + [] + [] == LevelVisits(levels);
    if best.None? && top == [] {
      final := Items(top);
      CrashTells(w, tick, LevelVisits(levels), scoring.acc);
      return;
    }
    BestOfKept(past, best, level);
    levels, final, expansions, candidates, evaluations :=
      TreeTells(w, node, depth + 1, Items(top), Better(best, top), scoring.acc, input, tick, levels);
  }

  lemma StringsNothing()
    ensures OffersInTurn([], [], [])
  {
  }

  lemma ScoresNone(w: World, node: Node, candidates: seq<Value>)
    requires node.TreeSearch?
    ensures Scores(w, node, candidates, [], [])
  {
  }

  // A beam expanded to its end was not stopped.
  lemma AllExpanded(node: Node, beam: seq<Value>, expansions: seq<Visit>, candidates: seq<Value>)
    requires node.TreeSearch? && Expands(node, beam, expansions, candidates)
    ensures !ExpansionStops(node, beam, expansions)
  {
  }

  // Every beam search tells such a story, whatever its nodes do.
  lemma SearchTellsItsStory(w: World, node: Node, input: Value, tick: nat)
    returns (levels: seq<Level>, beam: seq<Value>, expansions: seq<Visit>, candidates: seq<Value>,
             evaluations: seq<Visit>)
    requires node.TreeSearch?
    ensures var ran := Exec(w, node, input, tick);
            && TreeStory(w, node, input, levels, beam, expansions, candidates, evaluations, ran)
            && Makes(w, tick, LevelVisits(levels) + expansions + evaluations, ran)
  {
    hide TreeFrom, TreeStory;
    NothingTold(w, tick);
    levels, beam, expansions, candidates, evaluations :=
      TreeTells(w, node, 1, [input], None, Start(tick), input, tick, []);
  }
}
