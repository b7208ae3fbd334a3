/** Context builders (`context/compacting.py`, `context/default.py`, `context/chain.py`,
    `memory/context_builder.py`): the message list a run shows its provider, with the
    older part of the conversation replaced by a summary when it grows too long, with
    recalled text put beside the system prompt, and builders fed one into the next.

    What a query recalls, rendered, is an oracle. */
module Compaction {
  import opened Wrappers
  import opened Messages
  import opened Translation

  type Summariser = seq<Message> -> Option<string>

  // What a builder asks of a provider. A summariser that fails answers None.
  datatype Provider = Provider(window: int, countTokens: seq<Message> -> int, summarise: Summariser)

  datatype BuildInput = BuildInput(
    systemPrompt: string,
    history: seq<Message>,
    newInput: Option<Message>,
    provider: Provider)

  // What a query finds in memory, as one text to inject; a store or an embedder may fail.
  datatype Recalled = Nothing | Found(text: string) | Unavailable

  datatype Builder =
    | DefaultBuilder
    | CompactingBuilder(thresholdRatio: real, preserveRecent: int, compactor: Option<Summariser>)
    | MemoryBuilder(recall: (BuildInput, string) -> Recalled, beforeSystem: bool)
    | ChainedBuilder(builders: seq<Builder>)

  // The constructor of a chain already refuses to be given no builders.
  datatype BuildError = CompactionError(historySize: nat) | RecallError | EmptyChain

  // ---------- recognising and counting ----------

  function NewInput(input: BuildInput): seq<Message> {
    if input.newInput.Some? then [input.newInput.value] else []
  }

  function PromptMessage(prompt: string): Message {
    SystemMessage([TextBlock(prompt, false)])
  }

  predicate HasSummary(blocks: seq<Block>) {
    exists i :: 0 <= i < |blocks| && blocks[i].SummaryBlock?
  }

  predicate IsSummary(m: Message) {
    m.AssistantMessage? && HasSummary(m.content)
  }

  // The length of the longest prefix whose messages all satisfy `p`.
  function PrefixLength(h: seq<Message>, p: Message -> bool): (n: nat)
    ensures n <= |h|
    ensures forall i :: 0 <= i < n ==> p(h[i])
    ensures n < |h| ==> !p(h[n])
  {
    if h == [] || !p(h[0]) then 0 else 1 + PrefixLength(h[1..], p)
  }

  lemma {:induction false} PrefixLengthUnique(h: seq<Message>, p: Message -> bool, n: nat)
    requires n <= |h|
    requires forall i :: 0 <= i < n ==> p(h[i])
    requires n < |h| ==> !p(h[n])
    ensures n == PrefixLength(h, p)
  {
    if n > 0 {
      PrefixLengthUnique(h[1..], p, n - 1);
    }
  }

  function Systems(h: seq<Message>): nat
    ensures Systems(h) <= |h|
  {
    PrefixLength(h, (m: Message) => m.SystemMessage?)
  }

  function Summaries(h: seq<Message>): nat
    ensures Summaries(h) <= |h|
  {
    PrefixLength(h, (m: Message) => IsSummary(m))
  }

  // How many original messages a summary message stands for.
  function SummaryCount(blocks: seq<Block>): int {
    if blocks == [] then 0
    else
      var b := blocks[|blocks| - 1];
      SummaryCount(blocks[..|blocks| - 1]) + (if b.SummaryBlock? then b.originalCount else 0)
  }

  function PriorCount(prior: seq<Message>): int {
    if prior == [] then 0
    else
      var m := prior[|prior| - 1];
      PriorCount(prior[..|prior| - 1]) + (if m.AssistantMessage? then SummaryCount(m.content) else 0)
  }

  // ---------- where to cut ----------

  function NeededIds(m: Message): set<string> {
    set b | b in m.content && b.ToolResultBlock? :: b.callId
  }

  function UsedIds(prefix: seq<Message>): set<string> {
    set m, b | m in prefix && m.AssistantMessage? && b in m.content && b.ToolUseBlock? :: b.use.callId
  }

  function AdjustSplit(h: seq<Message>, split: nat): (r: nat)
    requires split <= |h|
    ensures r <= split
  {
    if split == 0 || split == |h| then split
    else if !h[split].ToolMessage? || NeededIds(h[split]) == {} || !(NeededIds(h[split]) <= UsedIds(h[..split]))
    then split
    else AdjustSplit(h, split - 1)
  }

  function SplitPoint(h: seq<Message>, preserveRecent: int): (r: nat)
    ensures r <= |h|
  {
    if preserveRecent <= 0 || h == [] then |h|
    else AdjustSplit(h, if |h| > preserveRecent then |h| - preserveRecent else 0)
  }

  // ---------- building ----------

  // The system prompt, unless the history brings its own.
  function Prompt(input: BuildInput): seq<Message> {
    if input.systemPrompt != "" && !(input.history != [] && input.history[0].SystemMessage?)
    then [PromptMessage(input.systemPrompt)] else []
  }

  function DefaultMessages(input: BuildInput): seq<Message> {
    Prompt(input) + input.history + NewInput(input)
  }

  // What the last user message says.
  function LastUserText(h: seq<Message>): string {
    if h == [] then ""
    else if h[|h| - 1].UserMessage? then TextOf(h[|h| - 1].content)
    else LastUserText(h[..|h| - 1])
  }

  function QueryOf(input: BuildInput): string {
    if input.newInput.Some? then TextOf(input.newInput.value.content) else LastUserText(input.history)
  }

  function RecalledFor(b: Builder, input: BuildInput): Recalled
    requires b.MemoryBuilder?
  {
    if QueryOf(input) == "" then Nothing else b.recall(input, QueryOf(input))
  }

  // What a builder puts before the history: system messages only.
  function Front(b: Builder, input: BuildInput): (front: seq<Message>)
    ensures forall i :: 0 <= i < |front| ==> front[i].SystemMessage?
  {
    if b.MemoryBuilder? && RecalledFor(b, input).Found? then
      var injected := [PromptMessage(RecalledFor(b, input).text)];
      if b.beforeSystem then injected + Prompt(input) else Prompt(input) + injected
    else Prompt(input)
  }

  predicate ShouldCompact(b: Builder, input: BuildInput) {
    && b.CompactingBuilder?
    && input.history != []
    && input.provider.window > 0
    && input.provider.countTokens(input.history) as real >= b.thresholdRatio * input.provider.window as real
  }

  // The conversation after its system prefix and its summaries.
  function Conversation(h: seq<Message>): seq<Message> {
    h[Systems(h)..][Summaries(h[Systems(h)..])..]
  }

  function PriorSummaries(h: seq<Message>): seq<Message> {
    h[Systems(h)..][..Summaries(h[Systems(h)..])]
  }

  function SummariserFor(b: Builder, input: BuildInput): Summariser
    requires b.CompactingBuilder?
  {
    if b.compactor.Some? then b.compactor.value else input.provider.summarise
  }

  predicate Compacts(b: Builder, input: BuildInput) {
    ShouldCompact(b, input) && SplitPoint(Conversation(input.history), b.preserveRecent) != 0
  }

  function Compactable(b: Builder, input: BuildInput): seq<Message>
    requires b.CompactingBuilder?
  {
    var remaining := Conversation(input.history);
    remaining[..SplitPoint(remaining, b.preserveRecent)]
  }

  function Preserved(b: Builder, input: BuildInput): seq<Message>
    requires b.CompactingBuilder?
  {
    var remaining := Conversation(input.history);
    remaining[SplitPoint(remaining, b.preserveRecent)..]
  }

  function SummaryMessage(text: string, count: int): Message {
    AssistantMessage([SummaryBlock(text, count)])
  }

  function Head(input: BuildInput): seq<Message> {
    var leading := input.history[..Systems(input.history)];
    if leading != [] then leading
    else if input.systemPrompt != "" then [PromptMessage(input.systemPrompt)] else []
  }

  // A builder that is not a chain.
  function BuildOne(b: Builder, input: BuildInput): Result<seq<Message>, BuildError>
    requires !b.ChainedBuilder?
  {
    if b.MemoryBuilder? && RecalledFor(b, input).Unavailable? then Err(RecallError)
    else if !Compacts(b, input) then Ok(Front(b, input) + input.history + NewInput(input))
    else
      var text := SummariserFor(b, input)(PriorSummaries(input.history) + Compactable(b, input));
      if text.None? then Err(CompactionError(|input.history|))
      else Ok(Assemble(input, NewSummary(b, input, text.value), Preserved(b, input)))
  }

  function Build(b: Builder, input: BuildInput): Result<seq<Message>, BuildError>
    decreases b
  {
    if !b.ChainedBuilder? then BuildOne(b, input)
    else if b.builders == [] then Err(EmptyChain)
    else Chain(b.builders, input, |b.builders|)
  }

  // The output of builders[..n], each fed the one before without its system messages.
  function Chain(builders: seq<Builder>, input: BuildInput, n: nat): Result<seq<Message>, BuildError>
    requires 0 < n <= |builders|
    decreases builders, n
  {
    if n == 1 then Build(builders[0], input) else
    var before := Chain(builders, input, n - 1);
    if before.Err? then before
    else Build(builders[n - 1], input.(history := StripSystem(before.value), newInput := None))
  }

  function StripSystem(h: seq<Message>): seq<Message> {
    if h == [] then []
    else StripSystem(h[..|h| - 1]) + (if h[|h| - 1].SystemMessage? then [] else [h[|h| - 1]])
  }

  // The one summary that now stands for the old ones and everything compacted.
  function NewSummary(b: Builder, input: BuildInput, text: string): Message
    requires b.CompactingBuilder?
  {
    SummaryMessage(text, PriorCount(PriorSummaries(input.history)) + |Compactable(b, input)|)
  }

  function Assemble(input: BuildInput, summary: Message, preserved: seq<Message>): seq<Message> {
    Head(input) + [summary] + preserved + NewInput(input)
  }

  // ---------- the loops of the source ----------

  method SplitLeadingSystem(h: seq<Message>) returns (leading: seq<Message>, tail: seq<Message>)
    ensures leading == h[..Systems(h)] && tail == h[Systems(h)..]
  {
    var cutoff := 0;
    while cutoff < |h| && h[cutoff].SystemMessage?
      invariant cutoff <= |h|
      invariant forall i :: 0 <= i < cutoff ==> h[i].SystemMessage?
    {
      cutoff := cutoff + 1;
    }
    PrefixLengthUnique(h, (m: Message) => m.SystemMessage?, cutoff);
    return h[..cutoff], h[cutoff..];
  }

  method SplitExistingSummary(h: seq<Message>) returns (prior: seq<Message>, remaining: seq<Message>)
    ensures prior == h[..Summaries(h)] && remaining == h[Summaries(h)..]
  {
    var cutoff := 0;
    while cutoff < |h| && IsSummary(h[cutoff])
      invariant cutoff <= |h|
      invariant forall i :: 0 <= i < cutoff ==> IsSummary(h[i])
    {
      cutoff := cutoff + 1;
    }
    PrefixLengthUnique(h, (m: Message) => IsSummary(m), cutoff);
    return h[..cutoff], h[cutoff..];
  }

  method PriorSummaryCount(prior: seq<Message>) returns (total: int)
    ensures total == PriorCount(prior)
  {
    total := 0;
    for i := 0 to |prior|
      invariant total == PriorCount(prior[..i])
    {
      assert prior[..i + 1][..i] == prior[..i];
      if prior[i].AssistantMessage? {
        var blocks := prior[i].content;
        var before := total;
        for j := 0 to |blocks|
          invariant total == before + SummaryCount(blocks[..j])
        {
          assert blocks[..j + 1][..j] == blocks[..j];
          if blocks[j].SummaryBlock? {
            total := total + blocks[j].originalCount;
          }
        }
        assert blocks[..|blocks|] == blocks;
      }
    }
    assert prior[..|prior|] == prior;
  }

  method HasMatchingToolUses(prefix: seq<Message>, callIds: set<string>) returns (matching: bool)
    ensures matching == (callIds <= UsedIds(prefix))
  {
    var seen: set<string> := {};
    for i := 0 to |prefix|
      invariant seen == UsedIds(prefix[..i])
    {
      assert prefix[..i + 1] == prefix[..i] + [prefix[i]];
      if prefix[i].AssistantMessage? {
        var blocks := prefix[i].content;
        ghost var before := seen;
        for j := 0 to |blocks|
          invariant seen == before + set b | b in blocks[..j] && b.ToolUseBlock? :: b.use.callId
        {
          assert blocks[..j + 1] == blocks[..j] + [blocks[j]];
          if blocks[j].ToolUseBlock? {
            seen := seen + {blocks[j].use.callId};
          }
        }
        assert blocks[..|blocks|] == blocks;
      }
    }
    assert prefix[..|prefix|] == prefix;
    matching := callIds <= seen;
  }

  method AdjustSplitForToolPairs(h: seq<Message>, start: nat) returns (split: nat)
    requires start <= |h|
    ensures split == AdjustSplit(h, start)
  {
    split := start;
    while 0 < split < |h|
      invariant split <= |h|
      invariant AdjustSplit(h, split) == AdjustSplit(h, start)
      decreases split
    {
      if !h[split].ToolMessage? {
        return;
      }
      var needed := NeededIds(h[split]);
      if needed == {} {
        return;
      }
      var matching := HasMatchingToolUses(h[..split], needed);
      if !matching {
        return;
      }
      split := split - 1;
    }
  }

  method SplitPreservingPairs(h: seq<Message>, preserveRecent: int)
    returns (compactable: seq<Message>, preserved: seq<Message>)
    ensures compactable == h[..SplitPoint(h, preserveRecent)] && preserved == h[SplitPoint(h, preserveRecent)..]
  {
    if preserveRecent <= 0 || h == [] {
      return h, [];
    }
    var split := AdjustSplitForToolPairs(h, if |h| > preserveRecent then |h| - preserveRecent else 0);
    return h[..split], h[split..];
  }

  // The end of `build`: the message list around the new summary.
  method AssembleMessages(input: BuildInput, leading: seq<Message>, summary: Message, preserved: seq<Message>)
    returns (messages: seq<Message>)
    requires leading == input.history[..Systems(input.history)]
    ensures messages == Assemble(input, summary, preserved)
  {
    messages := [];
    if leading != [] {
      messages := messages + leading;
    } else if input.systemPrompt != "" {
      messages := messages + [PromptMessage(input.systemPrompt)];
    }
    assert messages == Head(input);
    messages := messages + [summary];
    messages := messages + preserved;
    if input.newInput.Some? {
      messages := messages + [input.newInput.value];
    }
  }

  // `CompactingContextBuilder.build`.
  method Compacted(b: Builder, input: BuildInput) returns (r: Result<seq<Message>, BuildError>)
    requires b.CompactingBuilder?
    ensures r == BuildOne(b, input)
  {
    hide SplitPoint, Systems, Summaries, PriorCount, Prompt, Assemble;
    if !ShouldCompact(b, input) {
      return Ok(DefaultMessages(input));
    }
    var leading, tail := SplitLeadingSystem(input.history);
    var prior, remaining := SplitExistingSummary(tail);
    var compactable, preserved := SplitPreservingPairs(remaining, b.preserveRecent);
    assert prior == PriorSummaries(input.history) && compactable == Compactable(b, input);
    if compactable == [] {
      return Ok(DefaultMessages(input));
    }
    var text := SummariserFor(b, input)(prior + compactable);
    if text.None? {
      return Err(CompactionError(|input.history|));
    }
    var priorCount := PriorSummaryCount(prior);
    var messages := AssembleMessages(input, leading, SummaryMessage(text.value, priorCount + |compactable|), preserved);
    return Ok(messages);
  }

  method ExtractQuery(input: BuildInput) returns (query: string)
    ensures query == QueryOf(input)
  {
    if input.newInput.Some? {
      query := ConcatText(input.newInput.value.content);
      return;
    }
    var h := input.history;
    assert h[..|h|] == h;
    for i := |h| downto 0
      invariant LastUserText(h) == LastUserText(h[..i])
    {
      assert h[..i + 1][..i] == h[..i];
      if h[i].UserMessage? {
        query := ConcatText(h[i].content);
        return;
      }
    }
    query := "";
  }

  // `MemoryAwareContextBuilder.build`.
  method Recall(b: Builder, input: BuildInput) returns (r: Result<seq<Message>, BuildError>)
    requires b.MemoryBuilder?
    ensures r == BuildOne(b, input)
  {
    hide QueryOf;
    var query := ExtractQuery(input);
    var injected := [];
    if query != "" {
      match b.recall(input, query)
      case Unavailable => return Err(RecallError);
      case Found(text) => injected := [PromptMessage(text)];
      case Nothing =>
    }
    var messages := [];
    var startsWithSystem := input.history != [] && input.history[0].SystemMessage?;
    if b.beforeSystem {
      messages := messages + injected;
      if input.systemPrompt != "" && !startsWithSystem {
        messages := messages + [PromptMessage(input.systemPrompt)];
      }
    } else {
      if input.systemPrompt != "" && !startsWithSystem {
        messages := messages + [PromptMessage(input.systemPrompt)];
      }
      messages := messages + injected;
    }
    assert messages == Front(b, input);
    messages := messages + input.history;
    if input.newInput.Some? {
      messages := messages + [input.newInput.value];
    }
    assert messages == Front(b, input) + input.history + NewInput(input) && !Compacts(b, input);
    r := Ok(messages);
  }

  // `build` of whichever builder it is.
  method BuildMessages(b: Builder, input: BuildInput) returns (r: Result<seq<Message>, BuildError>)
    ensures r == Build(b, input)
    decreases b
  {
    hide Chain, Front, Assemble;
    match b
    case DefaultBuilder =>
      DefaultFront(input);
      r := Ok(DefaultMessages(input));
    case CompactingBuilder(_, _, _) => r := Compacted(b, input);
    case MemoryBuilder(_, _) => r := Recall(b, input);
    case ChainedBuilder(builders) =>
      if builders == [] {
        return Err(EmptyChain);
      }
      r := BuildChain(builders, input);
  }

  lemma DefaultFront(input: BuildInput)
    ensures BuildOne(DefaultBuilder, input) == Ok(DefaultMessages(input))
  {
  }

  // The generator `build` feeds the next builder from.
  method WithoutSystem(messages: seq<Message>) returns (history: seq<Message>)
    ensures history == StripSystem(messages)
  {
    history := [];
    for j := 0 to |messages|
      invariant history == StripSystem(messages[..j])
    {
      assert messages[..j + 1][..j] == messages[..j];
      if !messages[j].SystemMessage? {
        history := history + [messages[j]];
      }
    }
    assert messages[..|messages|] == messages;
  }

  // `ChainedContextBuilder.build`; its constructor refuses an empty chain.
  method BuildChain(builders: seq<Builder>, input: BuildInput) returns (r: Result<seq<Message>, BuildError>)
    requires builders != []
    ensures r == Chain(builders, input, |builders|)
    decreases builders
  {
    hide Build, StripSystem;
    r := BuildMessages(builders[0], input);
    if r.Err? {
      ChainFailureStays(builders, input, 1, |builders|);
      return;
    }
    for i := 1 to |builders|
      invariant r == Chain(builders, input, i) && r.Ok?
    {
      var history := WithoutSystem(r.value);
      r := BuildMessages(builders[i], input.(history := history, newInput := None));
      if r.Err? {
        ChainFailureStays(builders, input, i + 1, |builders|);
        return;
      }
    }
  }

  lemma {:induction false} ChainFailureStays(builders: seq<Builder>, input: BuildInput, m: nat, n: nat)
    requires 0 < m <= n <= |builders| && Chain(builders, input, m).Err?
    ensures Chain(builders, input, n) == Chain(builders, input, m)
  {
    hide Build, StripSystem;
    if m < n {
      ChainFailureStays(builders, input, m, n - 1);
    }
  }
}
