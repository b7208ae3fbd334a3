/** What compaction keeps: the pairing of calls and results, the number of messages
    the conversation stands for, and the recent messages word for word. */
module CompactionLaws {
  import opened Wrappers
  import opened Messages
  import opened Translation
  import opened Compaction

  // ---------- the cut ----------

  lemma AnswerNeedsItsQuestion(h: seq<Message>, cut: nat)
    requires 0 < cut < |h| && h[cut].ToolMessage?
    requires AskedIds(h[cut - 1]) != [] && ResultIds(h[cut].content) == AskedIds(h[cut - 1])
    ensures NeededIds(h[cut]) != {} && NeededIds(h[cut]) <= UsedIds(h[..cut])
  {
    var answer, question := h[cut], h[cut - 1];
    assert question in h[..cut];
    forall id | id in NeededIds(answer)
      ensures id in UsedIds(h[..cut])
    {
      var b :| b in answer.content && b.ToolResultBlock? && b.callId == id;
      ResultIdsHave(answer.content, b);
      UsesHave(question.content, id);
      var u :| u in question.content && u.ToolUseBlock? && u.use.callId == id;
      assert u.use.callId in UsedIds(h[..cut]);
    }
    var b := AnResult(answer.content);
    assert b.callId in NeededIds(answer);
  }

  lemma {:induction false} ResultIdsHave(blocks: seq<Block>, b: Block)
    requires b in blocks && b.ToolResultBlock?
    ensures b.callId in ResultIds(blocks)
  {
    if b != blocks[0] {
      ResultIdsHave(blocks[1..], b);
    }
  }

  lemma {:induction false} AnResult(blocks: seq<Block>) returns (b: Block)
    requires ResultIds(blocks) != []
    ensures b in blocks && b.ToolResultBlock?
  {
    if blocks[0].ToolResultBlock? {
      b := blocks[0];
    } else {
      b := AnResult(blocks[1..]);
    }
  }

  lemma {:induction false} UsesHave(blocks: seq<Block>, id: string)
    requires id in CallIds(ToolUses(blocks))
    ensures exists u :: u in blocks && u.ToolUseBlock? && u.use.callId == id
  {
    if blocks[0].ToolUseBlock? && blocks[0].use.callId == id {
      assert blocks[0] in blocks;
    } else {
      UsesHave(blocks[1..], id);
      var u :| u in blocks[1..] && u.ToolUseBlock? && u.use.callId == id;
      assert u in blocks;
    }
  }

  // A conversation whose answers all follow their questions, except that a stray
  // answer may stand first: what is left of a paired history once a prefix is gone.
  ghost predicate PairedTail(h: seq<Message>) {
    && (forall i :: 0 <= i < |h| && AskedIds(h[i]) != [] ==>
          i + 1 < |h| && h[i + 1].ToolMessage? && ResultIds(h[i + 1].content) == AskedIds(h[i]))
    && (forall i :: 0 < i < |h| && h[i].ToolMessage? ==> AskedIds(h[i - 1]) != [])
  }

  lemma TailOfPaired(h: seq<Message>, cut: nat)
    requires WellPaired(h) && cut <= |h|
    ensures PairedTail(h[cut..])
  {
    var t := h[cut..];
    forall i | 0 <= i < |t| && AskedIds(t[i]) != []
      ensures i + 1 < |t| && t[i + 1].ToolMessage? && ResultIds(t[i + 1].content) == AskedIds(t[i])
    {
      assert t[i] == h[cut + i];
      assert t[i + 1] == h[cut + i + 1];
    }
    forall i | 0 < i < |t| && t[i].ToolMessage?
      ensures AskedIds(t[i - 1]) != []
    {
      assert t[i] == h[cut + i] && t[i - 1] == h[cut + i - 1];
    }
  }

  // On a paired conversation the cut moves left by at most one message, and never
  // lands between a question and its answer.
  lemma CutRespectsPairs(h: seq<Message>, split: nat)
    requires PairedTail(h) && split <= |h|
    ensures var r := AdjustSplit(h, split);
      && split - 1 <= r <= split
      && (0 < r < |h| ==> !h[r].ToolMessage?)
  {
    if 0 < split < |h| && h[split].ToolMessage? {
      AnswerNeedsItsQuestion(h, split);
      assert !h[split - 1].ToolMessage?;
    }
  }

  lemma CutBounds(h: seq<Message>, preserveRecent: int)
    requires PairedTail(h)
    ensures var r := SplitPoint(h, preserveRecent);
      && (0 < r < |h| ==> !h[r].ToolMessage?)
      && (preserveRecent >= 1 ==> |h| - r <= preserveRecent + 1)
      && (preserveRecent >= 1 ==> |h| - r >= if |h| < preserveRecent then |h| else preserveRecent)
  {
    if preserveRecent > 0 && h != [] {
      CutRespectsPairs(h, if |h| > preserveRecent then |h| - preserveRecent else 0);
    }
  }

  // ---------- pairing ----------

  lemma PlainPaired(h: seq<Message>)
    requires forall i :: 0 <= i < |h| ==> ToolFree(h[i])
    ensures WellPaired(h)
  {
  }

  ghost predicate PlainInput(input: BuildInput) {
    input.newInput.Some? ==> ToolFree(input.newInput.value)
  }

  lemma FrontKeepsPairing(front: seq<Message>, input: BuildInput)
    requires forall i :: 0 <= i < |front| ==> front[i].SystemMessage?
    requires WellPaired(input.history) && PlainInput(input)
    ensures WellPaired(front + input.history + NewInput(input))
  {
    PlainPaired(front);
    PlainPaired(NewInput(input));
    ConcatWellPaired(front, input.history);
    ConcatWellPaired(front + input.history, NewInput(input));
  }

  lemma AssembleKeepsPairing(input: BuildInput, summary: Message, preserved: seq<Message>)
    requires ToolFree(summary) && WellPaired(preserved) && PlainInput(input)
    ensures WellPaired(Assemble(input, summary, preserved))
  {
    hide WellPaired;
    HeadPaired(input);
    PlainPaired(NewInput(input));
    AppendPlain(Head(input), summary);
    ConcatWellPaired(Head(input) + [summary], preserved);
    ConcatWellPaired(Head(input) + [summary] + preserved, NewInput(input));
  }

  lemma HeadPaired(input: BuildInput)
    ensures WellPaired(Head(input))
  {
    assert forall i :: 0 <= i < |Head(input)| ==> Head(input)[i].SystemMessage?;
  }

  lemma PreservedPaired(b: Builder, input: BuildInput)
    requires WellPaired(input.history) && Compacts(b, input)
    ensures WellPaired(Preserved(b, input))
  {
    hide SplitPoint, PrefixLength, WellPaired, PairedTail;
    var h := input.history;
    var remaining := Conversation(h);
    var from := Systems(h) + Summaries(h[Systems(h)..]);
    assert remaining == h[from..];
    TailOfPaired(h, from);
    CutBounds(remaining, b.preserveRecent);
    var cut := SplitPoint(remaining, b.preserveRecent);
    assert cut < |remaining| ==> remaining[cut] == h[from + cut];
    assert remaining[cut..] == h[from + cut..];
    SplitWellPaired(h, from + cut);
  }

  lemma OneKeepsPairing(b: Builder, input: BuildInput)
    requires !b.ChainedBuilder? && WellPaired(input.history) && PlainInput(input)
    ensures BuildOne(b, input).Ok? ==> WellPaired(BuildOne(b, input).value)
  {
    hide WellPaired, Compacts, Front, Assemble, Preserved, Compactable;
    if BuildOne(b, input).Ok? {
      if !Compacts(b, input) {
        FrontKeepsPairing(Front(b, input), input);
      } else {
        CompactsMeansCompacting(b, input);
        PreservedPaired(b, input);
        var text := SummariserFor(b, input)(PriorSummaries(input.history) + Compactable(b, input));
        SummaryToolFree(text.value, PriorCount(PriorSummaries(input.history)) + |Compactable(b, input)|);
        AssembleKeepsPairing(input, NewSummary(b, input, text.value), Preserved(b, input));
      }
    }
  }

  lemma SummaryToolFree(text: string, count: int)
    ensures ToolFree(SummaryMessage(text, count))
  {
    assert ToolUses([SummaryBlock(text, count)]) == [];
  }

  lemma CompactsMeansCompacting(b: Builder, input: BuildInput)
    requires Compacts(b, input)
    ensures b.CompactingBuilder?
  {
  }

  lemma StripSnoc(h: seq<Message>, m: Message)
    ensures StripSystem(h + [m]) == StripSystem(h) + (if m.SystemMessage? then [] else [m])
  {
    assert (h + [m])[..|h|] == h;
  }

  lemma {:induction false} StripKeepsPairing(h: seq<Message>)
    requires WellPaired(h)
    ensures WellPaired(StripSystem(h))
    decreases |h|
  {
    if h != [] {
      var n := |h| - 1;
      assert AskedIds(h[n]) == [];
      if h[n].ToolMessage? {
        assert AskedIds(h[n - 1]) != [] && ResultIds(h[n].content) == AskedIds(h[n - 1]);
        assert !h[n - 1].ToolMessage?;
        assert h == h[..n - 1] + [h[n - 1], h[n]];
        SplitWellPaired(h, n - 1);
        hide WellPaired, StripSystem;
        StripKeepsPairing(h[..n - 1]);
        StripExchange(h[..n - 1], h[n - 1], h[n]);
      } else {
        assert h == h[..n] + [h[n]];
        SplitWellPaired(h, n);
        hide WellPaired, StripSystem;
        StripSnoc(h[..n], h[n]);
        StripKeepsPairing(h[..n]);
        if h[n].SystemMessage? {
          assert StripSystem(h[..n]) + [] == StripSystem(h[..n]);
        } else {
          AppendPlain(StripSystem(h[..n]), h[n]);
        }
      }
    }
  }

  lemma StripExchange(front: seq<Message>, question: Message, answer: Message)
    requires WellPaired(StripSystem(front))
    requires AskedIds(question) != [] && answer.ToolMessage? && ResultIds(answer.content) == AskedIds(question)
    ensures WellPaired(StripSystem(front + [question, answer]))
  {
    assert question.AssistantMessage?;
    hide WellPaired, StripSystem, AskedIds;
    assert front + [question, answer] == front + [question] + [answer];
    StripSnoc(front + [question], answer);
    StripSnoc(front, question);
    AppendExchange(StripSystem(front), question, answer);
  }

  // On any paired history, even one that reuses call ids, a builder returns a paired
  // list, however its chains are nested.
  lemma {:induction false} BuildKeepsPairing(b: Builder, input: BuildInput)
    requires WellPaired(input.history) && PlainInput(input)
    ensures Build(b, input).Ok? ==> WellPaired(Build(b, input).value)
    decreases b
  {
    hide BuildOne, Chain, WellPaired;
    if !b.ChainedBuilder? {
      OneKeepsPairing(b, input);
    } else if b.builders != [] {
      ChainKeepsPairing(b.builders, input, |b.builders|);
    }
  }

  lemma {:induction false} ChainKeepsPairing(builders: seq<Builder>, input: BuildInput, n: nat)
    requires 0 < n <= |builders|
    requires WellPaired(input.history) && PlainInput(input)
    ensures Chain(builders, input, n).Ok? ==> WellPaired(Chain(builders, input, n).value)
    decreases builders, n
  {
    hide Build, StripSystem, WellPaired;
    if n == 1 {
      BuildKeepsPairing(builders[0], input);
    } else {
      ChainKeepsPairing(builders, input, n - 1);
      var before := Chain(builders, input, n - 1);
      if before.Ok? {
        StripKeepsPairing(before.value);
        BuildKeepsPairing(builders[n - 1], input.(history := StripSystem(before.value), newInput := None));
      }
    }
  }

  // What the provider receives from any builder is paired on the wire.
  lemma BuildPairedOnWire(b: Builder, input: BuildInput)
    requires WellPaired(input.history) && PlainInput(input)
    ensures Build(b, input).Ok? ==> WirePaired(WireHistory(Build(b, input).value), [])
  {
    BuildKeepsPairing(b, input);
    if Build(b, input).Ok? {
      TranslationKeepsPairing(Build(b, input).value);
    }
  }

  // ---------- weight ----------

  // How many original messages a message stands for; system messages stand for none.
  function WeightOf(m: Message): int {
    if m.SystemMessage? then 0 else if IsSummary(m) then SummaryCount(m.content) else 1
  }

  function Weight(h: seq<Message>): int {
    if h == [] then 0 else Weight(h[..|h| - 1]) + WeightOf(h[|h| - 1])
  }

  // System messages only at the head, then summaries, then messages that are neither.
  ghost predicate Rolled(h: seq<Message>) {
    forall m :: m in Conversation(h) ==> !m.SystemMessage? && !IsSummary(m)
  }

  function SummariesIn(h: seq<Message>): nat {
    |PriorSummaries(h)|
  }

  lemma {:induction false} WeightConcat(a: seq<Message>, b: seq<Message>)
    ensures Weight(a + b) == Weight(a) + Weight(b)
  {
    if b == [] {
      assert a + b == a;
    } else {
      assert (a + b)[..|a + b| - 1] == a + b[..|b| - 1];
      WeightConcat(a, b[..|b| - 1]);
    }
  }

  lemma {:induction false} WeightOfSystems(h: seq<Message>)
    requires forall m :: m in h ==> m.SystemMessage?
    ensures Weight(h) == 0
  {
    if h != [] {
      WeightOfSystems(h[..|h| - 1]);
    }
  }

  lemma {:induction false} WeightOfSummaries(h: seq<Message>)
    requires forall m :: m in h ==> IsSummary(m)
    ensures Weight(h) == PriorCount(h)
  {
    if h != [] {
      WeightOfSummaries(h[..|h| - 1]);
    }
  }

  lemma {:induction false} WeightOfPlain(h: seq<Message>)
    requires forall m :: m in h ==> !m.SystemMessage? && !IsSummary(m)
    ensures Weight(h) == |h|
  {
    if h != [] {
      WeightOfPlain(h[..|h| - 1]);
    }
  }

  // The three parts of a history.
  lemma Parts(h: seq<Message>)
    ensures h == h[..Systems(h)] + PriorSummaries(h) + Conversation(h)
    ensures forall m :: m in h[..Systems(h)] ==> m.SystemMessage?
    ensures forall m :: m in PriorSummaries(h) ==> IsSummary(m)
  {
    hide PrefixLength, IsSummary;
    var s := Systems(h);
    var tail := h[s..];
    var k := Summaries(tail);
    assert h[..s] + tail == h && tail[..k] + tail[k..] == tail;
    assert h[..s] + tail[..k] + tail[k..] == h[..s] + (tail[..k] + tail[k..]);
    assert forall m :: m in h[..s] ==> m.SystemMessage?;
    assert forall m :: m in tail[..k] ==> IsSummary(m);
  }

  // What they weigh.
  lemma WeightByParts(h: seq<Message>)
    requires Rolled(h)
    ensures Weight(h) == PriorCount(PriorSummaries(h)) + |Conversation(h)|
  {
    hide Systems, PriorSummaries, Conversation, IsSummary;
    Parts(h);
    WeightConcat(h[..Systems(h)] + PriorSummaries(h), Conversation(h));
    WeightConcat(h[..Systems(h)], PriorSummaries(h));
    WeightOfSystems(h[..Systems(h)]);
    WeightOfSummaries(PriorSummaries(h));
    WeightOfPlain(Conversation(h));
  }

  // How to recognise the parts of a history put together from them.
  lemma PartsOf(systems: seq<Message>, summaries: seq<Message>, rest: seq<Message>)
    requires forall m :: m in systems ==> m.SystemMessage?
    requires forall m :: m in summaries ==> IsSummary(m)
    requires forall m :: m in rest ==> !m.SystemMessage? && !IsSummary(m)
    ensures var h := systems + summaries + rest;
      && Systems(h) == |systems| && PriorSummaries(h) == summaries && Conversation(h) == rest && Rolled(h)
  {
    var h := systems + summaries + rest;
    if |systems| < |h| {
      assert h[|systems|] in summaries || h[|systems|] in rest;
    }
    PrefixLengthUnique(h, (m: Message) => m.SystemMessage?, |systems|);
    var tail := h[Systems(h)..];
    assert tail == summaries + rest;
    if |summaries| < |tail| {
      assert tail[|summaries|] in rest;
    }
    PrefixLengthUnique(tail, (m: Message) => IsSummary(m), |summaries|);
    assert tail[..|summaries|] == summaries && tail[|summaries|..] == rest;
  }

  ghost predicate PlainNewInput(input: BuildInput) {
    input.newInput.Some? ==> !input.newInput.value.SystemMessage? && !IsSummary(input.newInput.value)
  }

  // What one builder returns, part by part.
  ghost predicate Grows(before: seq<Message>, out: seq<Message>, added: nat) {
    PriorCount(PriorSummaries(out)) + |Conversation(out)|
        == PriorCount(PriorSummaries(before)) + |Conversation(before)| + added
  }

  lemma FrontParts(front: seq<Message>, input: BuildInput)
    requires forall i :: 0 <= i < |front| ==> front[i].SystemMessage?
    requires Rolled(input.history) && PlainNewInput(input)
    ensures var h, out := input.history, front + input.history + NewInput(input);
      && Rolled(out) && PriorSummaries(out) == PriorSummaries(h)
      && Conversation(out) == Conversation(h) + NewInput(input)
      && Grows(h, out, |NewInput(input)|)
  {
    var h := input.history;
    Parts(h);
    hide Systems, PriorSummaries, Conversation, IsSummary;
    var systems := front + h[..Systems(h)];
    Regroup(front, h[..Systems(h)], PriorSummaries(h), Conversation(h), NewInput(input));
    PartsOf(systems, PriorSummaries(h), Conversation(h) + NewInput(input));
  }

  lemma Regroup<T>(prompt: seq<T>, a: seq<T>, b: seq<T>, c: seq<T>, added: seq<T>)
    ensures prompt + (a + b + c) + added == (prompt + a) + b + (c + added)
  {
  }

  lemma AssembleParts(input: BuildInput, summary: Message, preserved: seq<Message>)
    requires Rolled(input.history) && PlainNewInput(input)
    requires IsSummary(summary)
    requires forall m :: m in preserved ==> !m.SystemMessage? && !IsSummary(m)
    ensures var out := Assemble(input, summary, preserved);
      Rolled(out) && PriorSummaries(out) == [summary] && Conversation(out) == preserved + NewInput(input)
  {
    assert forall m :: m in Head(input) ==> m.SystemMessage?;
    hide Head, Systems, PriorSummaries, Conversation, IsSummary;
    var out := Assemble(input, summary, preserved);
    assert out == Head(input) + [summary] + (preserved + NewInput(input));
    PartsOf(Head(input), [summary], preserved + NewInput(input));
  }

  lemma CompactedParts(b: Builder, input: BuildInput, text: string)
    requires Rolled(input.history) && PlainNewInput(input) && b.CompactingBuilder?
    ensures var h, out := input.history, Assemble(input, NewSummary(b, input, text), Preserved(b, input));
      && Rolled(out) && SummariesIn(out) == 1 && Conversation(out) == Preserved(b, input) + NewInput(input)
      && Grows(h, out, |NewInput(input)|)
  {
    hide SplitPoint, Systems, PriorSummaries, Conversation, Assemble;
    var summary := NewSummary(b, input, text);
    assert summary.content[0].SummaryBlock?;
    AssembleParts(input, summary, Preserved(b, input));
    OneSummaryCount(text, PriorCount(PriorSummaries(input.history)) + |Compactable(b, input)|);
  }

  lemma OneSummaryCount(text: string, count: int)
    ensures PriorCount([SummaryMessage(text, count)]) == count
  {
    var m := SummaryMessage(text, count);
    assert PriorCount([m]) == PriorCount([m][..0]) + SummaryCount(m.content);
    assert SummaryCount(m.content) == SummaryCount(m.content[..0]) + count;
  }

  lemma OneParts(b: Builder, input: BuildInput)
    requires Rolled(input.history) && PlainNewInput(input)
    requires !b.ChainedBuilder? && BuildOne(b, input).Ok?
    ensures var h, out := input.history, BuildOne(b, input).value;
      && Rolled(out) && Grows(h, out, |NewInput(input)|)
      && (Compacts(b, input) ==>
            SummariesIn(out) == 1 && Conversation(out) == Preserved(b, input) + NewInput(input))
      && (!Compacts(b, input) ==>
            PriorSummaries(out) == PriorSummaries(h) && Conversation(out) == Conversation(h) + NewInput(input))
  {
    hide Rolled, SplitPoint, Front, Assemble, Grows, PriorSummaries, Conversation;
    if !Compacts(b, input) {
      FrontParts(Front(b, input), input);
    } else {
      var text := SummariserFor(b, input)(PriorSummaries(input.history) + Compactable(b, input));
      CompactedParts(b, input, text.value);
    }
  }

  // One builder conserves the weight and keeps the shape; compacting leaves exactly
  // one summary, first after the system messages.
  lemma OneConservesWeight(b: Builder, input: BuildInput)
    requires Rolled(input.history) && PlainNewInput(input)
    requires !b.ChainedBuilder? && BuildOne(b, input).Ok?
    ensures var out := BuildOne(b, input).value;
      && Rolled(out)
      && Weight(out) == Weight(input.history) + |NewInput(input)|
      && (Compacts(b, input) ==> SummariesIn(out) == 1)
      && (!Compacts(b, input) ==> SummariesIn(out) == SummariesIn(input.history))
  {
    hide BuildOne, PriorCount, Conversation, PriorSummaries, Compacts;
    OneParts(b, input);
    WeightByParts(input.history);
    WeightByParts(BuildOne(b, input).value);
  }

  lemma {:induction false} StripSystemConcat(a: seq<Message>, b: seq<Message>)
    ensures StripSystem(a + b) == StripSystem(a) + StripSystem(b)
  {
    if b == [] {
      assert a + b == a;
    } else {
      assert (a + b)[..|a + b| - 1] == a + b[..|b| - 1];
      StripSystemConcat(a, b[..|b| - 1]);
    }
  }

  lemma {:induction false} StripAllSystem(h: seq<Message>)
    requires forall m :: m in h ==> m.SystemMessage?
    ensures StripSystem(h) == []
  {
    if h != [] {
      StripAllSystem(h[..|h| - 1]);
    }
  }

  lemma {:induction false} StripNoSystem(h: seq<Message>)
    requires forall m :: m in h ==> !m.SystemMessage?
    ensures StripSystem(h) == h
  {
    if h != [] {
      var front, last := h[..|h| - 1], h[|h| - 1];
      StripNoSystem(front);
      assert h == front + [last];
      assert last in h;
    }
  }

  lemma StripLeavesParts(systems: seq<Message>, summaries: seq<Message>, rest: seq<Message>)
    requires forall m :: m in systems ==> m.SystemMessage?
    requires forall m :: m in summaries ==> IsSummary(m)
    requires forall m :: m in rest ==> !m.SystemMessage?
    ensures StripSystem(systems + summaries + rest) == summaries + rest
  {
    SummariesAreNotSystem(summaries);
    hide StripSystem, IsSummary;
    StripSystemConcat(systems + summaries, rest);
    StripSystemConcat(systems, summaries);
    StripAllSystem(systems);
    StripNoSystem(summaries);
    StripNoSystem(rest);
    assert [] + summaries == summaries;
  }

  lemma StripKeepsWeight(h: seq<Message>)
    requires Rolled(h)
    ensures var t := StripSystem(h);
      Rolled(t) && Weight(t) == Weight(h) && SummariesIn(t) == SummariesIn(h)
  {
    Parts(h);
    WeightByParts(h);
    hide StripSystem, Weight, Systems, PriorSummaries, Conversation, IsSummary;
    var summaries, rest := PriorSummaries(h), Conversation(h);
    StripLeavesParts(h[..Systems(h)], summaries, rest);
    PartsOf([], summaries, rest);
    assert [] + summaries + rest == StripSystem(h);
    WeightByParts(StripSystem(h));
  }

  lemma SummariesAreNotSystem(h: seq<Message>)
    requires forall m :: m in h ==> IsSummary(m)
    ensures forall m :: m in h ==> !m.SystemMessage?
  {
  }

  // Any builder, however its chains are nested, conserves the weight of the conversation
  // and leaves at most one summary, placed first after the system messages.
  lemma {:induction false} BuildConservesWeight(b: Builder, input: BuildInput)
    requires Rolled(input.history) && PlainNewInput(input)
    requires Build(b, input).Ok?
    ensures var out := Build(b, input).value;
      && Rolled(out)
      && Weight(out) == Weight(input.history) + |NewInput(input)|
      && (SummariesIn(input.history) <= 1 ==> SummariesIn(out) <= 1)
    decreases b
  {
    hide BuildOne, Chain, Rolled, PriorSummaries, Weight, Compacts;
    if !b.ChainedBuilder? {
      OneConservesWeight(b, input);
    } else {
      ChainConservesWeight(b.builders, input, |b.builders|);
    }
  }

  lemma {:induction false} ChainConservesWeight(builders: seq<Builder>, input: BuildInput, n: nat)
    requires 0 < n <= |builders|
    requires Rolled(input.history) && PlainNewInput(input)
    requires Chain(builders, input, n).Ok?
    ensures var out := Chain(builders, input, n).value;
      && Rolled(out)
      && Weight(out) == Weight(input.history) + |NewInput(input)|
      && (SummariesIn(input.history) <= 1 ==> SummariesIn(out) <= 1)
    decreases builders, n
  {
    hide Build, Rolled, PriorSummaries, Weight, StripSystem;
    if n == 1 {
      BuildConservesWeight(builders[0], input);
    } else {
      ChainConservesWeight(builders, input, n - 1);
      var before := Chain(builders, input, n - 1).value;
      StripKeepsWeight(before);
      BuildConservesWeight(builders[n - 1], input.(history := StripSystem(before), newInput := None));
    }
  }

  // ---------- what a chain forgets ----------

  // What a builder that is not the last of a chain puts in front of the history does not
  // reach the provider: unless its memory fails, a recalling builder there is a default
  // one.
  lemma {:induction false} RecallBeforeTheEndIsLost(builders: seq<Builder>, input: BuildInput, i: nat, n: nat)
    requires i + 1 < n <= |builders| && builders[i].MemoryBuilder?
    ensures Chain(builders, input, n) == Err(RecallError)
            || Chain(builders, input, n) == Chain(builders[i := DefaultBuilder], input, n)
    decreases n
  {
    hide Build, StripSystem;
    var others := builders[i := DefaultBuilder];
    if n > i + 2 {
      RecallBeforeTheEndIsLost(builders, input, i, n - 1);
    } else {
      if i > 0 {
        SameStart(builders, others, input, i);
      }
      var before := if i == 0 then Ok(input) else FedFrom(Chain(builders, input, i), input);
      if before.Ok? {
        SameButForSystems(builders[i], before.value);
      }
    }
  }

  function FedFrom(r: Result<seq<Message>, BuildError>, input: BuildInput): Result<BuildInput, BuildError> {
    match r
    case Ok(messages) => Ok(input.(history := StripSystem(messages), newInput := None))
    case Err(error) => Err(error)
  }

  lemma {:induction false} SameStart(a: seq<Builder>, b: seq<Builder>, input: BuildInput, n: nat)
    requires 0 < n <= |a| && n <= |b| && a[..n] == b[..n]
    ensures Chain(a, input, n) == Chain(b, input, n)
    decreases n
  {
    hide Build, StripSystem;
    assert a[n - 1] == a[..n][n - 1] == b[n - 1];
    if n > 1 {
      assert a[..n - 1] == a[..n][..n - 1] == b[..n - 1];
      SameStart(a, b, input, n - 1);
    }
  }

  lemma SameButForSystems(b: Builder, input: BuildInput)
    requires b.MemoryBuilder?
    ensures Build(DefaultBuilder, input).Ok?
    ensures Build(b, input) == Err(RecallError)
            || (&& Build(b, input).Ok?
                && StripSystem(Build(b, input).value) == StripSystem(Build(DefaultBuilder, input).value))
  {
    hide StripSystem, QueryOf;
    StrippedFront(Front(b, input), input);
    StrippedFront(Front(DefaultBuilder, input), input);
  }

  lemma StrippedFront(front: seq<Message>, input: BuildInput)
    requires forall i :: 0 <= i < |front| ==> front[i].SystemMessage?
    ensures StripSystem(front + input.history + NewInput(input)) == StripSystem(input.history + NewInput(input))
  {
    hide StripSystem;
    assert front + input.history + NewInput(input) == front + (input.history + NewInput(input));
    StripSystemConcat(front, input.history + NewInput(input));
    StripAllSystem(front);
    assert [] + StripSystem(input.history + NewInput(input)) == StripSystem(input.history + NewInput(input));
  }

  // A summary-free start: the weight is the plain number of non-system messages.
  lemma {:induction false} SummaryFreeWeight(h: seq<Message>)
    requires forall m :: m in h ==> !IsSummary(m)
    ensures Weight(h) == |StripSystem(h)|
  {
    if h != [] {
      SummaryFreeWeight(h[..|h| - 1]);
    }
  }

  // ---------- size ----------

  // When a builder with `preserve_recent >= 1` compacts a paired history, it keeps the
  // last `preserve_recent` messages, or one more to keep a question with its answer:
  // a suffix of the conversation, word for word, between the summary and the new input.
  lemma CompactionBoundsSize(b: Builder, input: BuildInput)
    requires WellPaired(input.history) && Compacts(b, input) && b.preserveRecent >= 1
    requires Build(b, input).Ok?
    ensures var out, kept := Build(b, input).value, Preserved(b, input);
      && b.preserveRecent <= |kept| <= b.preserveRecent + 1
      && |out| == |Head(input)| + 1 + |kept| + |NewInput(input)|
      && kept == input.history[|input.history| - |kept|..]
      && out[|Head(input)| + 1..] == kept + NewInput(input)
  {
    var h, kept := input.history, Preserved(b, input);
    ConversationPaired(h);
    CutBounds(Conversation(h), b.preserveRecent);
    PreservedIsSuffix(b, input);
    hide Head, Preserved, NewSummary, Conversation, SplitPoint, PairedTail, WellPaired;
    var text := SummariserFor(b, input)(PriorSummaries(h) + Compactable(b, input));
    AssembledEnd(Head(input), NewSummary(b, input, text.value), kept, NewInput(input));
  }

  lemma AssembledEnd(head: seq<Message>, summary: Message, kept: seq<Message>, added: seq<Message>)
    ensures |head + [summary] + kept + added| == |head| + 1 + |kept| + |added|
    ensures (head + [summary] + kept + added)[|head| + 1..] == kept + added
  {
  }

  lemma ConversationPaired(h: seq<Message>)
    requires WellPaired(h)
    ensures PairedTail(Conversation(h))
  {
    hide PrefixLength, WellPaired, PairedTail;
    var from := Systems(h) + Summaries(h[Systems(h)..]);
    assert Conversation(h) == h[from..];
    TailOfPaired(h, from);
  }

  lemma PreservedIsSuffix(b: Builder, input: BuildInput)
    requires b.CompactingBuilder?
    ensures |Preserved(b, input)| <= |input.history|
    ensures Preserved(b, input) == input.history[|input.history| - |Preserved(b, input)|..]
  {
    hide PrefixLength, SplitPoint;
    var h := input.history;
    SuffixOfSuffix(h, Systems(h), Summaries(h[Systems(h)..]), SplitPoint(Conversation(h), b.preserveRecent));
  }

  lemma SuffixOfSuffix<T>(h: seq<T>, a: nat, b: nat, c: nat)
    requires a + b + c <= |h|
    ensures var t := h[a..][b..][c..];
      |t| <= |h| && t == h[|h| - |t|..]
  {
  }
}
