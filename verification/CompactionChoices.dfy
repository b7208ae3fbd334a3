/** What each context builder decides (`context/compacting.py`, `context/default.py`,
    `context/chain.py`, `memory/context_builder.py`): when a history is compacted, where it
    is cut, what is summarised and by whom, and the list that comes out. */
module CompactionChoices {
  import opened Lists
  import opened Wrappers
  import opened Messages
  import opened Translation
  import opened Compaction
  import opened WireMeaning

  // ---------- what a list opens and closes with ----------

  function Opening(input: BuildInput): seq<Message> {
    if input.systemPrompt == "" || (input.history != [] && input.history[0].SystemMessage?) then []
    else [SystemMessage([TextBlock(input.systemPrompt, false)])]
  }

  function Closing(input: BuildInput): seq<Message> {
    match input.newInput
    case None => []
    case Some(message) => [message]
  }

  // The system prompt unless the history brings one, the whole history, the new input.
  function Whole(input: BuildInput): seq<Message> {
    Opening(input) + input.history + Closing(input)
  }

  // ---------- where a history is cut ----------

  predicate SummaryLike(m: Message) {
    m.AssistantMessage? && exists b :: b in m.content && b.SummaryBlock?
  }

  ghost predicate AskedBetween(h: seq<Message>, from: int, to: int, callId: string) {
    exists q :: Asks(h, from, to, q, callId)
  }

  ghost predicate Asks(h: seq<Message>, from: int, to: int, q: int, callId: string) {
    && 0 <= from <= q < to <= |h| && h[q].AssistantMessage?
    && exists b :: b in h[q].content && b.ToolUseBlock? && b.use.callId == callId
  }

  // A cut before message `p` separates results from calls made since `from`.
  ghost predicate Tears(h: seq<Message>, from: int, p: int) {
    && 0 <= from < p < |h| && h[p].ToolMessage?
    && (exists b :: b in h[p].content && b.ToolResultBlock?)
    && forall b :: b in h[p].content && b.ToolResultBlock? ==> AskedBetween(h, from, p, b.callId)
  }

  // A history divides into system messages, summaries, what may be summarised next, and
  // the tail that is kept; each part ends where the next one starts.
  datatype Division = Division(summaries: int, older: int, kept: int)

  ghost predicate Divides(h: seq<Message>, preserveRecent: int, d: Division) {
    && 0 <= d.summaries <= d.older <= d.kept <= |h|
    && (forall i :: 0 <= i < d.summaries ==> h[i].SystemMessage?)
    && (d.summaries < |h| ==> !h[d.summaries].SystemMessage?)
    && (forall i :: d.summaries <= i < d.older ==> SummaryLike(h[i]))
    && (d.older < |h| ==> !SummaryLike(h[d.older]))
    && Kept(h, preserveRecent, d)
  }

  // The tail is the last `preserveRecent` messages, or more where the cut would tear; with
  // none to preserve there is no tail.
  ghost predicate Kept(h: seq<Message>, preserveRecent: int, d: Division) {
    if preserveRecent <= 0 then d.kept == |h|
    else
      var latest := if |h| - preserveRecent > d.older then |h| - preserveRecent else d.older;
      && d.kept <= latest && !Tears(h, d.older, d.kept)
      && forall p :: d.kept < p <= latest ==> Tears(h, d.older, p)
  }

  lemma DivisionIsUnique(h: seq<Message>, preserveRecent: int, d: Division, e: Division)
    requires Divides(h, preserveRecent, d) && Divides(h, preserveRecent, e)
    ensures d == e
  {
    hide SummaryLike, Tears;
  }

  // ---------- compacting ----------

  ghost predicate Full(b: Builder, input: BuildInput)
    requires b.CompactingBuilder?
  {
    && input.history != [] && input.provider.window > 0
    && input.provider.countTokens(input.history) as real >= b.thresholdRatio * input.provider.window as real
  }

  // What the summariser answers: the builder's own, or else the provider's.
  function Answer(b: Builder, input: BuildInput, messages: seq<Message>): Option<string>
    requires b.CompactingBuilder?
  {
    match b.compactor
    case Some(own) => own(messages)
    case None => input.provider.summarise(messages)
  }

  // The opening, the history's own system messages, one new summary, the tail, the input.
  ghost predicate Summarised(input: BuildInput, d: Division, list: seq<Message>, text: string)
    requires 0 <= d.summaries <= d.older <= d.kept <= |input.history|
  {
    exists count ::
      list == Opening(input) + input.history[..d.summaries] + [AssistantMessage([SummaryBlock(text, count)])]
              + input.history[d.kept..] + Closing(input)
  }

  lemma {:induction false} AdjustedCut(h: seq<Message>, from: nat, split: nat)
    requires from <= |h| && split <= |h| - from
    ensures var r := AdjustSplit(h[from..], split);
            !Tears(h, from, from + r) && forall p :: from + r < p <= from + split ==> Tears(h, from, p)
  {
    hide AskedBetween;
    var rest := h[from..];
    if 0 < split < |rest| {
      assert rest[split] == h[from + split];
      forall id ensures id in UsedIds(rest[..split]) <==> AskedBetween(h, from, from + split, id) {
        AskedIsUsed(h, from, from + split, id);
      }
      if rest[split].ToolMessage? && NeededIds(rest[split]) != {} && NeededIds(rest[split]) <= UsedIds(rest[..split]) {
        TearsWhenNeeded(h, from, from + split);
        AdjustedCut(h, from, split - 1);
      } else if Tears(h, from, from + split) {
        TornIsNeeded(h, from, from + split);
      }
    }
  }

  lemma AskedIsUsed(h: seq<Message>, from: nat, to: nat, id: string)
    requires from <= to <= |h|
    ensures id in UsedIds(h[from..][..to - from]) <==> AskedBetween(h, from, to, id)
  {
    var prefix := h[from..][..to - from];
    assert prefix == h[from..to];
    if id in UsedIds(prefix) {
      var m, b :| m in prefix && m.AssistantMessage? && b in m.content && b.ToolUseBlock? && b.use.callId == id;
      var i :| 0 <= i < |prefix| && prefix[i] == m;
      assert Asks(h, from, to, from + i, id);
    }
    if AskedBetween(h, from, to, id) {
      var q :| Asks(h, from, to, q, id);
      assert h[q] == prefix[q - from] && h[q] in prefix;
    }
  }

  lemma TearsWhenNeeded(h: seq<Message>, from: nat, p: nat)
    requires from < p < |h| && h[p].ToolMessage? && NeededIds(h[p]) != {}
    requires forall id :: id in NeededIds(h[p]) ==> AskedBetween(h, from, p, id)
    ensures Tears(h, from, p)
  {
    hide AskedBetween;
    var id :| id in NeededIds(h[p]);
    forall b | b in h[p].content && b.ToolResultBlock? ensures AskedBetween(h, from, p, b.callId) {
      assert b.callId in NeededIds(h[p]);
    }
  }

  lemma TornIsNeeded(h: seq<Message>, from: nat, p: nat)
    requires Tears(h, from, p)
    ensures h[p].ToolMessage? && NeededIds(h[p]) != {}
    ensures forall id :: id in NeededIds(h[p]) ==> AskedBetween(h, from, p, id)
  {
    hide AskedBetween;
    var b :| b in h[p].content && b.ToolResultBlock?;
    assert b.callId in NeededIds(h[p]);
  }

  lemma SummaryIsSummaryLike(m: Message)
    ensures IsSummary(m) <==> SummaryLike(m)
  {
    if SummaryLike(m) {
      var b :| b in m.content && b.SummaryBlock?;
      var i :| 0 <= i < |m.content| && m.content[i] == b;
    }
  }

  // Every history divides.
  lemma HistoryDivides(h: seq<Message>, preserveRecent: int) returns (d: Division)
    ensures Divides(h, preserveRecent, d)
    ensures d.summaries == Systems(h) && h[d.older..] == Conversation(h)
    ensures h[d.summaries..d.older] == PriorSummaries(h)
    ensures d.kept == d.older + SplitPoint(Conversation(h), preserveRecent)
  {
    hide AdjustSplit, PrefixLength, SummaryLike, IsSummary, Tears;
    var a := Systems(h);
    var rest := h[a..];
    var n := Summaries(rest);
    assert rest[n..] == h[a + n..] && rest[..n] == h[a..a + n];
    forall m: Message ensures IsSummary(m) <==> SummaryLike(m) {
      SummaryIsSummaryLike(m);
    }
    forall i | a <= i < a + n ensures SummaryLike(h[i]) {
      assert h[i] == rest[i - a];
    }
    if a + n < |h| {
      assert h[a + n] == rest[n];
    }
    var conversation := rest[n..];
    d := Division(a, a + n, a + n + SplitPoint(conversation, preserveRecent));
    if preserveRecent > 0 {
      if conversation == [] {
        EndIsWhole(h, d.older, d.kept);
      } else {
        AdjustedCut(h, a + n, if |conversation| > preserveRecent then |conversation| - preserveRecent else 0);
      }
    }
  }

  lemma EndIsWhole(h: seq<Message>, from: int, p: int)
    requires p >= |h|
    ensures !Tears(h, from, p)
  {
  }

  // A compacting builder summarises the old summaries and everything before the tail
  // exactly when the history fills its share of the window and something stands before
  // the tail, fails exactly when the summariser then does, and otherwise shows the whole
  // history.
  lemma CompactsExactly(b: Builder, input: BuildInput, d: Division)
    requires b.CompactingBuilder? && Divides(input.history, b.preserveRecent, d)
    ensures var built := Build(b, input);
            if Full(b, input) && d.older < d.kept then
              match Answer(b, input, input.history[d.summaries..d.kept])
              case None => built == Err(CompactionError(|input.history|))
              case Some(text) => built.Ok? && Summarised(input, d, built.value, text)
            else built == Ok(Whole(input))
  {
    hide Divides, Systems, Conversation, PriorSummaries, SplitPoint, PriorCount;
    var e := HistoryDivides(input.history, b.preserveRecent);
    DivisionIsUnique(input.history, b.preserveRecent, d, e);
    DivisionFits(input.history, b.preserveRecent, d);
    var h, rest := input.history, Conversation(input.history);
    if Full(b, input) && d.older < d.kept {
      assert rest[..d.kept - d.older] == h[d.older..d.kept];
      assert PriorSummaries(h) + Compactable(b, input) == h[d.summaries..d.kept];
      assert Preserved(b, input) == h[d.kept..];
      var text := Answer(b, input, h[d.summaries..d.kept]);
      if text.Some? {
        OpeningIsHead(input, d);
        var count := PriorCount(PriorSummaries(h)) + |Compactable(b, input)|;
        assert Build(b, input).value
            == Opening(input) + h[..d.summaries] + [AssistantMessage([SummaryBlock(text.value, count)])]
               + h[d.kept..] + Closing(input);
      }
    }
  }

  lemma DivisionFits(h: seq<Message>, preserveRecent: int, d: Division)
    requires Divides(h, preserveRecent, d)
    ensures 0 <= d.summaries <= d.older <= d.kept <= |h|
    ensures d.summaries > 0 ==> h != [] && h[0].SystemMessage?
    ensures d.summaries == 0 && h != [] ==> !h[0].SystemMessage?
    ensures forall i :: d.summaries <= i < d.older ==> SummaryLike(h[i])
    ensures d.older < |h| ==> !SummaryLike(h[d.older])
  {
    hide SummaryLike, Tears;
  }

  lemma OpeningIsHead(input: BuildInput, d: Division)
    requires d.summaries == Systems(input.history)
    requires d.summaries > 0 ==> input.history != [] && input.history[0].SystemMessage?
    requires d.summaries == 0 && input.history != [] ==> !input.history[0].SystemMessage?
    ensures Head(input) == Opening(input) + input.history[..d.summaries]
  {
    hide Systems;
  }

  // The list built is not the whole history, and carries a new summary where the old ones
  // and the older messages stood, if and only if the window is known and full enough and
  // there are older messages.
  lemma NewSummaryExactlyWhenFull(b: Builder, input: BuildInput, d: Division)
    requires b.CompactingBuilder? && Divides(input.history, b.preserveRecent, d)
    ensures 0 <= d.summaries <= d.older <= d.kept <= |input.history|
    ensures var built := Build(b, input);
            built.Ok? ==>
              && (built.value != Whole(input) <==> Full(b, input) && d.older < d.kept)
              && (built.value != Whole(input) <==>
                    built.value != Whole(input) && exists text :: Summarised(input, d, built.value, text))
  {
    hide Divides, Build;
    CompactsExactly(b, input, d);
    DivisionFits(input.history, b.preserveRecent, d);
    if Build(b, input).Ok? && Full(b, input) && d.older < d.kept {
      var text := Answer(b, input, input.history[d.summaries..d.kept]).value;
      if Build(b, input).value == Whole(input) {
        WholeIsNotSummarised(input, d, text);
      }
    }
  }

  lemma WholeIsNotSummarised(input: BuildInput, d: Division, text: string)
    requires 0 <= d.summaries <= d.older < d.kept <= |input.history|
    requires !SummaryLike(input.history[d.older])
    ensures !Summarised(input, d, Whole(input), text)
  {
    var h, o := input.history, |Opening(input)|;
    forall count
      ensures Opening(input) + h[..d.summaries] + [AssistantMessage([SummaryBlock(text, count)])]
              + h[d.kept..] + Closing(input) != Whole(input)
    {
      var summary := AssistantMessage([SummaryBlock(text, count)]);
      var list := Opening(input) + h[..d.summaries] + [summary] + h[d.kept..] + Closing(input);
      assert |list| == |Whole(input)| - (d.kept - d.summaries) + 1;
      if d.kept - d.summaries == 1 {
        assert SummaryBlock(text, count) in summary.content && SummaryLike(summary);
        assert list[o + d.summaries] == summary && Whole(input)[o + d.summaries] == h[d.older];
      }
    }
  }

  // ---------- the other builders ----------

  lemma DefaultShowsAll(input: BuildInput)
    ensures Build(DefaultBuilder, input) == Ok(Whole(input))
  {
  }

  predicate LastUser(h: seq<Message>, j: int) {
    0 <= j < |h| && h[j].UserMessage? && forall i :: j < i < |h| ==> !h[i].UserMessage?
  }

  // The text to search memory for: of the new input, or else of the last user message.
  ghost predicate Queries(input: BuildInput, query: string) {
    if input.newInput.Some? then Reads(input.newInput.value.content, query)
    else
      && (forall j :: LastUser(input.history, j) ==> Reads(input.history[j].content, query))
      && ((forall i :: 0 <= i < |input.history| ==> !input.history[i].UserMessage?) ==> query == "")
  }

  lemma {:induction false} LastUserReads(h: seq<Message>)
    ensures forall j :: LastUser(h, j) ==> Reads(h[j].content, LastUserText(h))
    ensures (forall i :: 0 <= i < |h| ==> !h[i].UserMessage?) ==> LastUserText(h) == ""
  {
    hide Reads, TextOf;
    if h != [] {
      var front := h[..|h| - 1];
      if h[|h| - 1].UserMessage? {
        ContentOnWire(h[|h| - 1].content);
      } else {
        LastUserReads(front);
        forall j | LastUser(h, j) ensures Reads(h[j].content, LastUserText(h)) {
          assert LastUser(front, j) && front[j] == h[j];
        }
      }
    }
  }

  lemma QueryIsAsked(input: BuildInput)
    ensures Queries(input, QueryOf(input))
  {
    LastUserReads(input.history);
    if input.newInput.Some? {
      ContentOnWire(input.newInput.value.content);
    }
    hide Reads, TextOf, LastUserText;
  }

  // A memory builder asks for what its query recalls, fails exactly when that fails, and
  // puts what is found beside the system prompt, before the whole history.
  ghost predicate Recalls(b: Builder, input: BuildInput, query: string, built: Result<seq<Message>, BuildError>)
    requires b.MemoryBuilder?
  {
    if query == "" then built == Ok(Whole(input))
    else
      match b.recall(input, query)
      case Unavailable => built == Err(RecallError)
      case Nothing => built == Ok(Whole(input))
      case Found(text) =>
        var found := [SystemMessage([TextBlock(text, false)])];
        built == Ok((if b.beforeSystem then found + Opening(input) else Opening(input) + found)
                    + input.history + Closing(input))
  }

  lemma RecallIsBuilt(b: Builder, input: BuildInput)
    requires b.MemoryBuilder?
    ensures Recalls(b, input, QueryOf(input), Build(b, input))
  {
    hide QueryOf;
    assert !Compacts(b, input) && NewInput(input) == Closing(input) && Prompt(input) == Opening(input);
  }

  // And it asks exactly what the new input, or else the last user message, says.
  lemma RecallsExactly(b: Builder, input: BuildInput) returns (query: string)
    requires b.MemoryBuilder?
    ensures Queries(input, query)
    ensures Recalls(b, input, query, Build(b, input))
  {
    query := QueryOf(input);
    QueryIsAsked(input);
    RecallIsBuilt(b, input);
    hide Queries, QueryOf, Build, Recalls;
  }

  predicate NotSystem(m: Message) {
    !m.SystemMessage?
  }

  // One stage of a chain after another: what came out, without its system messages.
  ghost predicate Feeds(input: BuildInput, before: Result<seq<Message>, BuildError>, next: Builder,
                        after: Result<seq<Message>, BuildError>)
  {
    before.Ok? && exists h :: Selects(before.value, h, NotSystem)
                              && after == Build(next, input.(history := h, newInput := None))
  }

  ghost predicate Stages(
      builders: seq<Builder>, input: BuildInput, outs: seq<Result<seq<Message>, BuildError>>)
  {
    && 0 < |outs| <= |builders| && outs[0] == Build(builders[0], input)
    && forall i :: 0 < i < |outs| ==> Feeds(input, outs[i - 1], builders[i], outs[i])
  }

  lemma {:induction false} StripSelects(h: seq<Message>)
    ensures Selects(h, StripSystem(h), NotSystem)
  {
    hide Selects;
    if h == [] {
      SelectsNothing(h, StripSystem(h), NotSystem);
    } else {
      var front, last := h[..|h| - 1], h[|h| - 1];
      StripSelects(front);
      SelectsOneMore(front, StripSystem(front), NotSystem, last);
      assert h == front + [last] && StripSystem(front) + [] == StripSystem(front);
      assert StripSystem(h) == if NotSystem(last) then StripSystem(front) + [last] else StripSystem(front);
    }
  }

  lemma {:induction false} ChainStages(builders: seq<Builder>, input: BuildInput, n: nat)
    returns (outs: seq<Result<seq<Message>, BuildError>>)
    requires 0 < n <= |builders|
    ensures Stages(builders, input, outs) && outs[|outs| - 1] == Chain(builders, input, n)
    ensures |outs| <= n && (|outs| < n ==> outs[|outs| - 1].Err?)
  {
    hide Build, StripSystem, Selects;
    if n == 1 {
      outs := [Chain(builders, input, 1)];
    } else {
      outs := ChainStages(builders, input, n - 1);
      var before := Chain(builders, input, n - 1);
      if before.Ok? {
        StripSelects(before.value);
        assert Feeds(input, before, builders[n - 1], Chain(builders, input, n));
        outs := outs + [Chain(builders, input, n)];
      }
    }
  }

  // A chain runs its builders in order, each on what the one before built, up to the
  // first that fails, and answers what the last one answers.
  lemma ChainRunsInStages(builders: seq<Builder>, input: BuildInput)
    returns (outs: seq<Result<seq<Message>, BuildError>>)
    ensures if builders == [] then Build(ChainedBuilder(builders), input) == Err(EmptyChain)
            else
              && Stages(builders, input, outs) && outs[|outs| - 1] == Build(ChainedBuilder(builders), input)
              && (outs[|outs| - 1].Ok? ==> |outs| == |builders|)
  {
    hide Chain, Stages;
    outs := [];
    if builders != [] {
      outs := ChainStages(builders, input, |builders|);
    }
  }
}
