/** How the streams of both providers end (`providers/openai/streaming.py`,
    `providers/anthropic/streaming.py`): the last reason and usage reported, what each
    event yields, and which call a stream fails on. */
module StreamEndings {
  import opened JsonValue
  import opened Lists
  import opened StreamedCalls
  import opened ToolCalls
  import opened Usage
  import opened Wrappers
  import Anthropic = AnthropicStreaming
  import OpenAi = OpenAiStreaming
  import Laws = StreamingLaws

  // How argument text is read: nothing is the empty object, an object is its members, and
  // any other value is wrapped.
  ghost predicate ReadAs(codec: Codec, text: string, arguments: Arguments) {
    match codec.loads(if text == "" then "{}" else text)
    case Some(Object(fields)) => arguments == fields
    case Some(value) => arguments == map["value" := value]
    case None => false
  }

  ghost predicate Unreadable(codec: Codec, text: string) {
    codec.loads(if text == "" then "{}" else text) == None
  }

  lemma DecodedReads(codec: Codec, parts: seq<string>)
    ensures var arguments := Decoded(codec, parts);
            && (arguments.None? <==> Unreadable(codec, Concatenated(parts)))
            && (arguments.Some? ==> ReadAs(codec, Concatenated(parts), arguments.value))
  {
    hide Concatenated;
  }

  // ---------- OpenAI ----------

  // What a chunk reports: a finish reason that says something, and the usage.
  function ReasonIn(c: OpenAi.Chunk): Option<string> {
    match c.choice
    case Choice(_, Some(reason)) => if reason == "" then None else Some(reason)
    case _ => None
  }

  function Reasons(chunks: seq<OpenAi.Chunk>): (reasons: seq<Option<string>>)
    ensures |reasons| == |chunks| && forall i :: 0 <= i < |chunks| ==> reasons[i] == ReasonIn(chunks[i])
  {
    seq(|chunks|, i requires 0 <= i < |chunks| => ReasonIn(chunks[i]))
  }

  function Usages(chunks: seq<OpenAi.Chunk>): (usages: seq<Option<TokenUsage>>)
    ensures |usages| == |chunks| && forall i :: 0 <= i < |chunks| ==> usages[i] == chunks[i].usage
  {
    seq(|chunks|, i requires 0 <= i < |chunks| => chunks[i].usage)
  }

  function Worded(reason: string): Option<string> {
    if reason == "" then None else Some(reason)
  }

  ghost predicate NeverFinishes(emitted: seq<LlmChunk>) {
    forall i :: 0 <= i < |emitted| ==> !emitted[i].Finish?
  }

  lemma {:induction false} AnnouncementsDoNotFinish(slots: OpenAi.Slots, ds: seq<OpenAi.Delta>)
    ensures NeverFinishes(OpenAi.AnnounceAll(slots, ds))
  {
    if ds != [] {
      AnnouncementsDoNotFinish(slots, ds[..|ds| - 1]);
    }
  }

  // What a chunk does to the reason, the usage and the flag, and what it yields.
  lemma ChunkStep(p: OpenAi.Progress, chunk: OpenAi.Chunk)
    ensures var q := OpenAi.Step(p, chunk);
            && Worded(q.reason) == (if ReasonIn(chunk).Some? then ReasonIn(chunk) else Worded(p.reason))
            && q.usage == (if chunk.usage.Some? then chunk.usage else p.usage)
            && q.sawChoices == (p.sawChoices || !chunk.choice.NoChoices?)
            && (NeverFinishes(p.emitted) ==> NeverFinishes(q.emitted))
  {
    AnnouncementsDoNotFinish(p.slots, OpenAi.DeltasOf(chunk));
    hide OpenAi.AbsorbAll, OpenAi.AnnounceAll;
  }

  lemma {:induction false} OpenAiProgress(chunks: seq<OpenAi.Chunk>)
    ensures var p := OpenAi.After(chunks);
            && LastGiven(Reasons(chunks), Worded(p.reason)) && LastGiven(Usages(chunks), p.usage)
            && NeverFinishes(p.emitted)
            && (p.sawChoices <==> exists i :: 0 <= i < |chunks| && !chunks[i].choice.NoChoices?)
  {
    hide LastGiven, OpenAi.Step, NeverFinishes, Worded;
    if chunks == [] {
      NothingGiven();
    } else {
      var front, chunk := chunks[..|chunks| - 1], chunks[|chunks| - 1];
      OpenAiProgress(front);
      var p := OpenAi.After(front);
      ChunkStep(p, chunk);
      LastGivenSnoc(Reasons(front), Worded(p.reason), ReasonIn(chunk));
      LastGivenSnoc(Usages(front), p.usage, chunk.usage);
      assert Reasons(chunks) == Reasons(front) + [ReasonIn(chunk)];
      assert Usages(chunks) == Usages(front) + [chunk.usage];
      assert chunks[|front|] == chunk && forall i :: 0 <= i < |front| ==> chunks[i] == front[i];
    }
  }

  lemma NothingGiven()
    ensures LastGiven(Reasons([]), Worded("")) && LastGiven(Usages([]), None)
    ensures NeverFinishes(OpenAi.After([]).emitted)
  {
  }

  // The argument text an index received, and the id it goes by.
  function TextFor(chunks: seq<OpenAi.Chunk>, k: int): string {
    Concatenated(Laws.AllParts(Laws.Project(Laws.Deltas(chunks), k)))
  }

  function IdFor(chunks: seq<OpenAi.Chunk>, k: int): string {
    Laws.FirstId(Laws.Project(Laws.Deltas(chunks), k))
  }

  // The ends of the calls, index by index in ascending order.
  ghost predicate EndsEach(codec: Codec, chunks: seq<OpenAi.Chunk>, keys: seq<int>, ends: seq<LlmChunk>) {
    && |ends| == |keys|
    && forall i :: 0 <= i < |ends| ==>
         && ends[i].ToolCallEnd? && ends[i].callId == IdFor(chunks, keys[i])
         && ReadAs(codec, TextFor(chunks, keys[i]), ends[i].arguments)
  }

  // The first index, in that order, whose text cannot be read.
  ghost predicate FailsFirstAt(codec: Codec, chunks: seq<OpenAi.Chunk>, keys: seq<int>, i: int, id: string) {
    && 0 <= i < |keys| && id == IdFor(chunks, keys[i]) && Unreadable(codec, TextFor(chunks, keys[i]))
    && forall j :: 0 <= j < i ==> !Unreadable(codec, TextFor(chunks, keys[j]))
  }

  ghost predicate FailsFirst(codec: Codec, chunks: seq<OpenAi.Chunk>, keys: seq<int>, id: string) {
    exists i :: FailsFirstAt(codec, chunks, keys, i, id)
  }

  lemma {:induction false} FlushReads(codec: Codec, chunks: seq<OpenAi.Chunk>, slots: OpenAi.Slots, keys: seq<int>)
    requires forall i :: 0 <= i < |keys| ==> keys[i] in slots
    requires forall i :: 0 <= i < |keys| ==>
               slots[keys[i]].callId == IdFor(chunks, keys[i])
               && Concatenated(slots[keys[i]].parts) == TextFor(chunks, keys[i])
    ensures match OpenAi.FlushAll(codec, slots, keys)
            case Ok(ends) => EndsEach(codec, chunks, keys, ends)
            case Err(id) => FailsFirst(codec, chunks, keys, id)
  {
    hide Decoded, ReadAs, Unreadable, TextFor, IdFor;
    if keys != [] {
      var buffer, rest := slots[keys[0]], keys[1..];
      DecodedReads(codec, buffer.parts);
      FlushReads(codec, chunks, slots, rest);
      if Decoded(codec, buffer.parts).None? {
        assert FailsFirstAt(codec, chunks, keys, 0, buffer.callId);
      } else if OpenAi.FlushAll(codec, slots, rest).Err? {
        DecodedExcludes(codec, buffer.parts);
        var id := OpenAi.FlushAll(codec, slots, rest).error;
        var i :| FailsFirstAt(codec, chunks, rest, i, id);
        assert FailsFirstAt(codec, chunks, keys, i + 1, id);
      }
    }
  }

  lemma DecodedExcludes(codec: Codec, parts: seq<string>)
    requires Decoded(codec, parts).Some?
    ensures !Unreadable(codec, Concatenated(parts))
  {
    DecodedReads(codec, parts);
  }

  // An OpenAI stream fails on the first call, by index, whose argument text cannot be read,
  // and otherwise ends every call by its first id with what its text reads as, and then
  // finishes, once, with the last reason and the last usage reported, if the stream said
  // anything at all.
  lemma OpenAiEndsExactly(codec: Codec, chunks: seq<OpenAi.Chunk>) returns (keys: seq<int>, before: seq<LlmChunk>)
    ensures OpenAi.Ascending(keys)
    ensures forall k :: k in keys <==> Laws.Project(Laws.Deltas(chunks), k) != []
    ensures NeverFinishes(before)
    ensures var s := OpenAi.Translation(codec, chunks);
            match s.failure
            case Some(id) => FailsFirst(codec, chunks, keys, id) && s.emitted == before
            case None =>
              && EndsEach(codec, chunks, keys, Ends(s.emitted))
              && if (exists i :: 0 <= i < |chunks| && !chunks[i].choice.NoChoices?)
                    || (exists i :: 0 <= i < |chunks| && chunks[i].usage.Some?)
                 then
                   && |s.emitted| == |before| + 1 && s.emitted[..|before|] == before
                   && var last := s.emitted[|before|];
                   && last.Finish? && LastGiven(Reasons(chunks), Worded(last.reason))
                   && LastGiven(Usages(chunks), last.usage)
                 else s.emitted == before
  {
    hide OpenAi.AbsorbAll, OpenAi.AnnounceAll, OpenAi.FlushAll, OpenAi.After, FailsFirst, EndsEach, TextFor, IdFor;
    hide Laws.Project, Laws.Deltas, Laws.TextOf, Ends, Starts, Texts;
    var p := OpenAi.After(chunks);
    OpenAiProgress(chunks);
    Laws.AfterChunks(chunks);
    Laws.TranslationViews(codec, chunks);
    keys := OpenAi.SortedKeys(p.slots.Keys);
    OpenAi.SortedAscends(p.slots.Keys);
    forall k: int
      ensures k in p.slots <==> Laws.Project(Laws.Deltas(chunks), k) != []
      ensures k in p.slots ==>
                p.slots[k].callId == IdFor(chunks, k) && Concatenated(p.slots[k].parts) == TextFor(chunks, k)
    {
      SlotsRead(chunks, k);
    }
    FlushReads(codec, chunks, p.slots, keys);
    Laws.FlushOnlyEnds(codec, p.slots, keys);
    UsageGiven(chunks, p.usage);
    before := match OpenAi.Flushed(codec, p.slots) case Ok(ends) => p.emitted + ends case Err(_) => p.emitted;
  }

  lemma SlotsRead(chunks: seq<OpenAi.Chunk>, k: int)
    ensures var slots := OpenAi.AbsorbAll(map[], Laws.Deltas(chunks));
            && (k in slots <==> Laws.Project(Laws.Deltas(chunks), k) != [])
            && (k in slots ==>
                  slots[k].callId == IdFor(chunks, k) && Concatenated(slots[k].parts) == TextFor(chunks, k))
  {
    Laws.BufferIsSummary(Laws.Deltas(chunks), k);
  }

  lemma UsageGiven(chunks: seq<OpenAi.Chunk>, usage: Option<TokenUsage>)
    requires LastGiven(Usages(chunks), usage)
    ensures usage.Some? <==> exists i :: 0 <= i < |chunks| && chunks[i].usage.Some?
  {
    if usage.Some? {
      var i :| LastAt(Usages(chunks), i, usage.value);
      assert chunks[i].usage.Some?;
    }
  }

  // ---------- Anthropic ----------

  // The buffer a block has open after its own events among the first `n`.
  function Open(events: seq<Anthropic.Event>, n: nat, k: int): Option<Buffer>
    requires n <= |events|
  {
    Anthropic.Track(Anthropic.Project(events[..n], k))
  }

  // The events that end a stream: an error, the end of the message, and the end of a
  // block whose text cannot be read.
  ghost predicate Halts(codec: Codec, events: seq<Anthropic.Event>, i: nat)
    requires i < |events|
  {
    match events[i]
    case ErrorEvent(_) => true
    case MessageStop => true
    case BlockStop(Some(k)) =>
      Open(events, i, k).Some? && Unreadable(codec, Concatenated(Open(events, i, k).value.parts))
    case _ => false
  }

  function StopReason(e: Anthropic.Event): Option<string> {
    if e.MessageDelta? then e.stopReason else None
  }

  function StopReasons(events: seq<Anthropic.Event>): (reasons: seq<Option<string>>)
    ensures |reasons| == |events| && forall i :: 0 <= i < |events| ==> reasons[i] == StopReason(events[i])
  {
    seq(|events|, i requires 0 <= i < |events| => StopReason(events[i]))
  }

  function Reported(e: Anthropic.Event, c: Counter): Option<int> {
    if e.MessageDelta? && e.usage.Some? then Count(e.usage.value, c) else None
  }

  function Reports(events: seq<Anthropic.Event>, c: Counter): (counts: seq<Option<int>>)
    ensures |counts| == |events| && forall i :: 0 <= i < |events| ==> counts[i] == Reported(events[i], c)
  {
    seq(|events|, i requires 0 <= i < |events| => Reported(events[i], c))
  }

  // The last reason given, and each counter as last reported.
  ghost predicate FinishesWith(events: seq<Anthropic.Event>, reason: string, usage: Option<TokenUsage>) {
    && (exists last :: LastGiven(StopReasons(events), last) && reason == if last.Some? then last.value else "")
    && (usage.Some? <==> exists i :: 0 <= i < |events| && events[i].MessageDelta? && events[i].usage.Some?)
    && (usage.Some? ==> forall c: Counter :: LastGiven(Reports(events, c), Count(usage.value, c)))
  }

  // What one event yields.
  ghost predicate Yields(codec: Codec, events: seq<Anthropic.Event>, i: nat, part: seq<LlmChunk>)
    requires i < |events|
  {
    match events[i]
    case BlockStart(Some(_), Some(tool)) => part == [ToolCallStart(tool.id, tool.name)]
    case BlockDelta(_, TextDelta(Some(text))) => part == if text == "" then [] else [TextChunk(text)]
    case BlockStop(Some(k)) =>
      if Open(events, i, k).None? || Halts(codec, events, i) then part == []
      else
        && |part| == 1 && part[0].ToolCallEnd? && part[0].callId == Open(events, i, k).value.callId
        && ReadAs(codec, Concatenated(Open(events, i, k).value.parts), part[0].arguments)
    case MessageStop => |part| == 1 && part[0].Finish? && FinishesWith(events[..i], part[0].reason, part[0].usage)
    case _ => part == []
  }

  ghost predicate YieldsEach(codec: Codec, events: seq<Anthropic.Event>, parts: seq<seq<LlmChunk>>) {
    |parts| <= |events| && forall i :: 0 <= i < |parts| ==> Yields(codec, events, i, parts[i])
  }

  // How an event that halts ends the stream.
  ghost predicate HaltsAs(events: seq<Anthropic.Event>, i: nat, ending: Anthropic.Ending)
    requires i < |events|
  {
    match events[i]
    case ErrorEvent(message) => ending == Anthropic.StreamError(message)
    case BlockStop(Some(k)) =>
      Open(events, i, k).Some? && ending == Anthropic.StreamError(Open(events, i, k).value.callId)
    case _ => ending == Anthropic.Finished
  }

  lemma FinishesSnoc(front: seq<Anthropic.Event>, e: Anthropic.Event, reason: string, usage: Option<TokenUsage>)
    requires FinishesWith(front, reason, usage)
    ensures FinishesWith(front + [e], if StopReason(e).Some? then StopReason(e).value else reason,
              if e.MessageDelta? && e.usage.Some? then Some(Anthropic.MergedUsage(usage, e.usage.value)) else usage)
  {
    hide LastGiven;
    var events := front + [e];
    var last :| LastGiven(StopReasons(front), last) && reason == if last.Some? then last.value else "";
    LastGivenSnoc(StopReasons(front), last, StopReason(e));
    assert StopReasons(events) == StopReasons(front) + [StopReason(e)];
    assert events[|front|] == e && forall i :: 0 <= i < |front| ==> events[i] == front[i];
    forall c: Counter
      ensures usage.Some? || (e.MessageDelta? && e.usage.Some?) ==>
                LastGiven(Reports(events, c),
                          if Reported(e, c).Some? then Reported(e, c)
                          else if usage.Some? then Count(usage.value, c) else None)
    {
      CounterSnoc(front, e, usage, c);
    }
  }

  lemma CounterSnoc(front: seq<Anthropic.Event>, e: Anthropic.Event, usage: Option<TokenUsage>, c: Counter)
    requires usage.Some? ==> LastGiven(Reports(front, c), Count(usage.value, c))
    requires usage.None? ==> forall i :: 0 <= i < |front| ==> !(front[i].MessageDelta? && front[i].usage.Some?)
    ensures var before := if usage.Some? then Count(usage.value, c) else None;
            LastGiven(Reports(front + [e], c), if Reported(e, c).Some? then Reported(e, c) else before)
  {
    var before := if usage.Some? then Count(usage.value, c) else None;
    assert LastGiven(Reports(front, c), before);
    hide LastGiven;
    LastGivenSnoc(Reports(front, c), before, Reported(e, c));
    assert Reports(front + [e], c) == Reports(front, c) + [Reported(e, c)];
  }

  // One more event of a stream still running.
  lemma OneMoreEvent(codec: Codec, events: seq<Anthropic.Event>, n: nat)
    requires n < |events| && Anthropic.After(codec, events[..n]).ending.Running?
    requires var p := Anthropic.After(codec, events[..n]); FinishesWith(events[..n], p.reason, p.usage)
    ensures var p, q := Anthropic.After(codec, events[..n]), Anthropic.After(codec, events[..n + 1]);
            && q.emitted == p.emitted + Anthropic.Yielded(codec, p, events[n])
            && Yields(codec, events, n, Anthropic.Yielded(codec, p, events[n]))
            && (Halts(codec, events, n) ==> HaltsAs(events, n, q.ending))
            && (!Halts(codec, events, n) ==> q.ending.Running?)
            && FinishesWith(events[..n + 1], q.reason, q.usage)
  {
    hide FinishesWith, Decoded, Anthropic.MergedUsage, ReadAs, Unreadable, Anthropic.Track, Anthropic.Project;
    var p, e := Anthropic.After(codec, events[..n]), events[n];
    Anthropic.AfterNext(codec, events, n);
    FinishesSnoc(events[..n], e, p.reason, p.usage);
    assert events[..n + 1] == events[..n] + [e];
    if e.BlockStop? && e.index.Some? {
      Anthropic.BlocksAreIndependent(codec, events[..n], e.index.value);
      if e.index.value in p.slots {
        DecodedReads(codec, p.slots[e.index.value].parts);
      }
    }
  }

  lemma {:induction false} RunningYields(codec: Codec, events: seq<Anthropic.Event>, n: nat)
    returns (parts: seq<seq<LlmChunk>>)
    requires n <= |events| && forall i :: 0 <= i < n ==> !Halts(codec, events, i)
    ensures var p := Anthropic.After(codec, events[..n]);
            && p.ending.Running? && FinishesWith(events[..n], p.reason, p.usage)
            && |parts| == n && YieldsEach(codec, events, parts) && Strung(parts, p.emitted)
    decreases n
  {
    hide FinishesWith, Yields, Halts, Strung, Anthropic.Yielded;
    if n == 0 {
      NothingYielded(codec, events);
      parts := [];
    } else {
      parts := RunningYields(codec, events, n - 1);
      OneMoreEvent(codec, events, n - 1);
      var p := Anthropic.After(codec, events[..n - 1]);
      StrungSnoc(parts, p.emitted, Anthropic.Yielded(codec, p, events[n - 1]));
      parts := parts + [Anthropic.Yielded(codec, p, events[n - 1])];
    }
  }

  lemma NothingYielded(codec: Codec, events: seq<Anthropic.Event>)
    ensures events[..0] == [] && Anthropic.After(codec, events[..0]) == Anthropic.START
    ensures FinishesWith(events[..0], "", None) && Strung([], Anthropic.START.emitted)
  {
    assert LastGiven(StopReasons(events[..0]), None);
  }

  lemma {:induction false} FirstHalt(codec: Codec, events: seq<Anthropic.Event>, from: nat) returns (n: nat)
    requires from <= |events| && forall i :: 0 <= i < from ==> !Halts(codec, events, i)
    ensures n <= |events| && (forall i :: 0 <= i < n ==> !Halts(codec, events, i))
    ensures n < |events| ==> Halts(codec, events, n)
    decreases |events| - from
  {
    hide Halts;
    n := from;
    if from < |events| && !Halts(codec, events, from) {
      n := FirstHalt(codec, events, from + 1);
    }
  }

  // An Anthropic stream is read up to the first event that halts it, which says how it
  // ends; each event read yields what that event is about, a finish the last reason and
  // the usage as last reported, counter by counter; nothing else is yielded.
  lemma AnthropicEndsExactly(codec: Codec, events: seq<Anthropic.Event>)
    returns (n: nat, parts: seq<seq<LlmChunk>>)
    ensures n <= |events| && (forall i :: 0 <= i < n ==> !Halts(codec, events, i))
    ensures n < |events| ==> Halts(codec, events, n)
    ensures |parts| == if n < |events| then n + 1 else n
    ensures var p := Anthropic.After(codec, events);
            && YieldsEach(codec, events, parts) && Strung(parts, p.emitted)
            && if n < |events| then HaltsAs(events, n, p.ending) else p.ending.Running?
  {
    hide FinishesWith, Yields, Halts, HaltsAs, Strung, Anthropic.Yielded;
    n := FirstHalt(codec, events, 0);
    parts := RunningYields(codec, events, n);
    if n < |events| {
      OneMoreEvent(codec, events, n);
      var p := Anthropic.After(codec, events[..n]);
      StrungSnoc(parts, p.emitted, Anthropic.Yielded(codec, p, events[n]));
      parts := parts + [Anthropic.Yielded(codec, p, events[n])];
      HaltedStays(codec, events, n);
    } else {
      assert events[..n] == events;
    }
  }

  lemma HaltedStays(codec: Codec, events: seq<Anthropic.Event>, n: nat)
    requires n < |events| && HaltsAs(events, n, Anthropic.After(codec, events[..n + 1]).ending)
    ensures Anthropic.After(codec, events) == Anthropic.After(codec, events[..n + 1])
  {
    Anthropic.EndedStays(codec, events, n + 1);
  }
}
