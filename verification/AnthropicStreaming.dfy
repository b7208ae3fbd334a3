/** The Anthropic streaming translator (`providers/anthropic/streaming.py`): typed
    events open, feed and close blocks, and a tool call ends when its block stops.

    An `Event` is one decoded SSE payload after the handlers' own `isinstance` tests: a
    field of the wrong type reads as absent. */
module AnthropicStreaming {
  import opened JsonValue
  import opened StreamedCalls
  import opened ToolCalls
  import opened Usage
  import opened Wrappers

  datatype Delta =
    | TextDelta(text: Option<string>)
    | InputJsonDelta(partial: Option<string>)
    | OtherDelta

  // `tool` is None for a block that is not a tool_use.
  datatype Tool = Tool(id: string, name: string)

  datatype Event =
    | ErrorEvent(message: string)
    | BlockStart(index: Option<int>, tool: Option<Tool>)
    | BlockDelta(index: Option<int>, delta: Delta)
    | BlockStop(index: Option<int>)
    | MessageDelta(stopReason: Option<string>, usage: Option<TokenUsage>)
    | MessageStop
    | Ignored

  type Slots = map<int, Buffer>

  datatype Ending = Running | Finished | StreamError(about: string)

  // The translator's variables after some events.
  datatype Progress = Progress(
    slots: Slots, emitted: seq<LlmChunk>, reason: string, usage: Option<TokenUsage>, ending: Ending)

  const START := Progress(map[], [], "", None, Running)

  function Pick(reported: Option<int>, fallback: Option<int>): Option<int> {
    if reported.Some? then reported else fallback
  }

  // A later report overrides the counters it carries and keeps the others.
  function MergedUsage(existing: Option<TokenUsage>, raw: TokenUsage): TokenUsage {
    var base := if existing.Some? then existing.value else NO_USAGE;
    TokenUsage(
      Pick(raw.input, base.input),
      Pick(raw.output, base.output),
      Pick(raw.cacheRead, base.cacheRead),
      Pick(raw.cacheCreation, base.cacheCreation))
  }

  function Opened(tool: Tool): Buffer {
    Buffer(tool.id, tool.name, [])
  }

  function Fed(buffer: Buffer, part: string): Buffer {
    buffer.(parts := buffer.parts + [part])
  }

  function SlotsAfter(slots: Slots, e: Event): Slots {
    match e
    case BlockStart(Some(k), Some(tool)) => slots[k := Opened(tool)]
    case BlockDelta(Some(k), InputJsonDelta(Some(part))) =>
      if k in slots then slots[k := Fed(slots[k], part)] else slots
    case BlockStop(Some(k)) => slots - {k}
    case _ => slots
  }

  function Yielded(codec: Codec, p: Progress, e: Event): seq<LlmChunk> {
    match e
    case BlockStart(Some(k), Some(tool)) => [ToolCallStart(tool.id, tool.name)]
    case BlockDelta(_, TextDelta(Some(text))) => if text == "" then [] else [TextChunk(text)]
    case BlockStop(Some(k)) =>
      if k !in p.slots || Decoded(codec, p.slots[k].parts).None? then []
      else [ToolCallEnd(p.slots[k].callId, Decoded(codec, p.slots[k].parts).value)]
    case MessageStop => [Finish(p.reason, p.usage)]
    case _ => []
  }

  function EndingAfter(codec: Codec, p: Progress, e: Event): Ending {
    match e
    case ErrorEvent(message) => StreamError(message)
    case BlockStop(Some(k)) =>
      if k in p.slots && Decoded(codec, p.slots[k].parts).None? then StreamError(p.slots[k].callId) else Running
    case MessageStop => Finished
    case _ => Running
  }

  function Step(codec: Codec, p: Progress, e: Event): Progress {
    if !p.ending.Running? then p
    else
      Progress(
        SlotsAfter(p.slots, e),
        p.emitted + Yielded(codec, p, e),
        if e.MessageDelta? && e.stopReason.Some? then e.stopReason.value else p.reason,
        if e.MessageDelta? && e.usage.Some? then Some(MergedUsage(p.usage, e.usage.value)) else p.usage,
        EndingAfter(codec, p, e))
  }

  function After(codec: Codec, events: seq<Event>): Progress {
    if events == [] then START else Step(codec, After(codec, events[..|events| - 1]), events[|events| - 1])
  }

  // ---------- the translator ----------

  // The `tool_buffers` dictionary the handlers update in place.
  class ToolBuffers {
    var slots: Slots

    constructor ()
      ensures slots == map[]
    {
      slots := map[];
    }

    method HandleBlockStart(index: Option<int>, tool: Option<Tool>) returns (chunk: Option<LlmChunk>)
      modifies this
      ensures slots == SlotsAfter(old(slots), BlockStart(index, tool))
      ensures chunk == if index.Some? && tool.Some? then Some(ToolCallStart(tool.value.id, tool.value.name)) else None
    {
      if tool.None? || index.None? {
        return None;
      }
      slots := slots[index.value := Buffer(tool.value.id, tool.value.name, [])];
      chunk := Some(ToolCallStart(tool.value.id, tool.value.name));
    }

    method HandleBlockDelta(index: Option<int>, delta: Delta) returns (chunk: Option<LlmChunk>)
      modifies this
      ensures slots == SlotsAfter(old(slots), BlockDelta(index, delta))
      ensures chunk
          == if delta.TextDelta? && delta.text.Some? && delta.text.value != "" then Some(TextChunk(delta.text.value))
                       else None
    {
      chunk := None;
      if delta.TextDelta? {
        if delta.text.Some? && delta.text.value != "" {
          chunk := Some(TextChunk(delta.text.value));
        }
        return;
      }
      if delta.InputJsonDelta? && index.Some? {
        if index.value in slots && delta.partial.Some? {
          var buffer := slots[index.value];
          slots := slots[index.value := buffer.(parts := buffer.parts + [delta.partial.value])];
        }
      }
    }

    // Err is the StreamError, about the call whose input does not decode.
    method HandleBlockStop(codec: Codec, index: Option<int>) returns (r: Result<Option<LlmChunk>, string>)
      modifies this
      ensures slots == SlotsAfter(old(slots), BlockStop(index))
      ensures if index.None? || index.value !in old(slots) then r == Ok(None)
              else
                var buffer := old(slots)[index.value];
                var arguments := Decoded(codec, buffer.parts);
                r == if arguments.None? then Err(buffer.callId)
                     else Ok(Some(ToolCallEnd(buffer.callId, arguments.value)))
    {
      if index.None? {
        return Ok(None);
      }
      if index.value !in slots {
        assert slots - {index.value} == slots;
        return Ok(None);
      }
      var buffer := slots[index.value];
      slots := slots - {index.value};
      var arguments := Decoded(codec, buffer.parts);
      if arguments.None? {
        return Err(buffer.callId);
      }
      r := Ok(Some(ToolCallEnd(buffer.callId, arguments.value)));
    }
  }

  lemma {:induction false} EndedStays(codec: Codec, events: seq<Event>, n: nat)
    requires n <= |events| && !After(codec, events[..n]).ending.Running?
    ensures After(codec, events) == After(codec, events[..n])
    decreases |events|
  {
    hide Step;
    if n == |events| {
      assert events[..n] == events;
    } else {
      var front := events[..|events| - 1];
      assert front[..n] == events[..n];
      EndedStays(codec, front, n);
      EndedStep(codec, After(codec, front), events[|events| - 1]);
    }
  }

  lemma EndedStep(codec: Codec, p: Progress, e: Event)
    requires !p.ending.Running?
    ensures Step(codec, p, e) == p
  {
  }

  lemma AfterNext(codec: Codec, events: seq<Event>, i: nat)
    requires i < |events|
    ensures After(codec, events[..i + 1]) == Step(codec, After(codec, events[..i]), events[i])
  {
    assert events[..i + 1][..i] == events[..i] && events[..i + 1][i] == events[i];
  }

  method TranslateEvents(codec: Codec, events: seq<Event>) returns (emitted: seq<LlmChunk>, ending: Ending)
    ensures emitted == After(codec, events).emitted && ending == After(codec, events).ending
  {
    hide After;
    var buffers := new ToolBuffers();
    emitted, ending := [], Running;
    var reason := "";
    var usage: Option<TokenUsage> := None;
    NothingYet(codec, events);
    for i := 0 to |events|
      invariant fresh(buffers)
      invariant ending == Running
      invariant After(codec, events[..i]) == Progress(buffers.slots, emitted, reason, usage, Running)
    {
      ghost var before := emitted;
      AfterNext(codec, events, i);
      match events[i] {
        case ErrorEvent(message) =>
          ending := StreamError(message);
        case BlockStart(index, tool) =>
          var chunk := buffers.HandleBlockStart(index, tool);
          emitted := emitted + if chunk.Some? then [chunk.value] else [];
        case BlockDelta(index, delta) =>
          var chunk := buffers.HandleBlockDelta(index, delta);
          emitted := emitted + if chunk.Some? then [chunk.value] else [];
        case BlockStop(index) =>
          var stopped := buffers.HandleBlockStop(codec, index);
          if stopped.Err? {
            ending := StreamError(stopped.error);
          } else {
            emitted := emitted + if stopped.value.Some? then [stopped.value.value] else [];
          }
        case MessageDelta(stopReason, report) =>
          if stopReason.Some? {
            reason := stopReason.value;
          }
          if report.Some? {
            usage := Some(MergedUsage(usage, report.value));
          }
        case MessageStop =>
          emitted := emitted + [Finish(reason, usage)];
          ending := Finished;
        case Ignored =>
      }
      assert before + [] == before;
      if ending != Running {
        EndedStays(codec, events, i + 1);
        return;
      }
    }
    assert events[..|events|] == events;
  }

  lemma NothingYet(codec: Codec, events: seq<Event>)
    ensures After(codec, events[..0]) == START
  {
  }

  // ---------- blocks, independently of the translator ----------

  predicate Addresses(e: Event, k: int) {
    (e.BlockStart? || e.BlockDelta? || e.BlockStop?) && e.index == Some(k)
  }

  // The events addressed to one block, in order.
  function Project(events: seq<Event>, k: int): seq<Event> {
    if events == [] then []
    else
      var last := events[|events| - 1];
      Project(events[..|events| - 1], k) + if Addresses(last, k) then [last] else []
  }

  // What a block's own events make of its buffer.
  function Track(es: seq<Event>): Option<Buffer> {
    if es == [] then None
    else
      var before := Track(es[..|es| - 1]);
      match es[|es| - 1]
      case BlockStart(_, Some(tool)) => Some(Opened(tool))
      case BlockDelta(_, InputJsonDelta(Some(part))) => if before.Some? then Some(Fed(before.value, part)) else None
      case BlockStop(_) => None
      case _ => before
  }

  lemma TrackSnoc(es: seq<Event>, e: Event)
    ensures Track(es + [e])
            == match e
               case BlockStart(_, Some(tool)) => Some(Opened(tool))
               case BlockDelta(_, InputJsonDelta(Some(part))) =>
                 if Track(es).Some? then Some(Fed(Track(es).value, part)) else None
               case BlockStop(_) => None
               case _ => Track(es)
  {
    assert (es + [e])[..|es|] == es;
  }

  // While the stream runs, each buffer is a function of its own block's events: the
  // others, wherever they fall, do not touch it.
  lemma {:induction false} BlocksAreIndependent(codec: Codec, events: seq<Event>, k: int)
    requires After(codec, events).ending.Running?
    ensures var slots := After(codec, events).slots;
            Track(Project(events, k)) == if k in slots then Some(slots[k]) else None
  {
    hide Track, Decoded, MergedUsage;
    if events == [] {
      TrackNothing();
    } else {
      var front, e := events[..|events| - 1], events[|events| - 1];
      BlocksAreIndependent(codec, front, k);
      var before := Project(front, k);
      if Addresses(e, k) {
        assert Project(events, k) == before + [e];
        TrackSnoc(before, e);
      } else {
        assert Project(events, k) == before + [] == before;
        OtherBlocks(After(codec, front).slots, e, k);
      }
    }
  }

  lemma OtherBlocks(slots: Slots, e: Event, k: int)
    requires !Addresses(e, k)
    ensures k in SlotsAfter(slots, e) <==> k in slots
    ensures k in slots ==> SlotsAfter(slots, e)[k] == slots[k]
  {
  }

  lemma TrackNothing()
    ensures Track([]) == None
  {
  }

  // ---------- a printed message, cut anywhere ----------

  // The argument fragments of a block.
  function PiecesIn(es: seq<Event>): seq<string> {
    if es == [] then []
    else
      var front, e := PiecesIn(es[..|es| - 1]), es[|es| - 1];
      if e.BlockDelta? && e.delta.InputJsonDelta? && e.delta.partial.Some?
      then front + [e.delta.partial.value] else front
  }

  // One call printed as a block: a start, deltas that spell the arguments, a stop. No
  // arguments at all may also be spelled by nothing.
  predicate BlockFor(codec: Codec, es: seq<Event>, call: ToolCall) {
    && |es| >= 2
    && es[0].BlockStart? && es[0].tool == Some(Tool(call.callId, call.toolName))
    && es[|es| - 1].BlockStop?
    && (forall i :: 0 < i < |es| - 1 ==> es[i].BlockDelta?)
    && var json := Concatenated(PiecesIn(es));
       json == codec.dumps(call.arguments) || (json == "" && call.arguments == map[])
  }

  // The blocks of a message, cut and interleaved in any way: `calls` by block index,
  // any number of other blocks and events beside them, and no error.
  ghost predicate Fragments(codec: Codec, events: seq<Event>, calls: map<int, ToolCall>) {
    && (forall e :: e in events ==> !e.ErrorEvent? && !e.MessageStop?)
    && (forall k :: k in calls ==> BlockFor(codec, Project(events, k), calls[k]))
    && (forall e :: e in events && e.BlockStart? && e.index.Some? && e.tool.Some? ==> e.index.value in calls)
  }

  function EventText(e: Event): string {
    if e.BlockDelta? && e.delta.TextDelta? && e.delta.text.Some? then e.delta.text.value else ""
  }

  function TextOf(events: seq<Event>): string {
    if events == [] then "" else TextOf(events[..|events| - 1]) + EventText(events[|events| - 1])
  }

  // The calls in the order in which their blocks stop.
  function EndsIn(events: seq<Event>, calls: map<int, ToolCall>): seq<LlmChunk> {
    if events == [] then []
    else
      var front, e := EndsIn(events[..|events| - 1], calls), events[|events| - 1];
      if e.BlockStop? && e.index.Some? && e.index.value in calls
      then front + [ToolCallEnd(calls[e.index.value].callId, calls[e.index.value].arguments)]
      else front
  }

  lemma {:induction false} ProjectPrefix(events: seq<Event>, n: nat, k: int)
    requires n <= |events|
    ensures Project(events[..n], k) <= Project(events, k)
    decreases |events|
  {
    if n == |events| {
      assert events[..n] == events;
    } else {
      var front := events[..|events| - 1];
      assert front[..n] == events[..n];
      ProjectPrefix(front, n, k);
    }
  }

  // The buffer of a block that has had its start and some deltas.
  lemma {:induction false} OpenBlock(es: seq<Event>, tool: Tool, n: nat)
    requires 1 <= n <= |es|
    requires es[0].BlockStart? && es[0].tool == Some(tool)
    requires forall i :: 0 < i < n ==> es[i].BlockDelta?
    ensures Track(es[..n]) == Some(Buffer(tool.id, tool.name, PiecesIn(es[..n])))
  {
    if n == 1 {
      assert es[..1] == [] + [es[0]];
      TrackSnoc([], es[0]);
      assert es[..1][..0] == [];
    } else {
      OpenBlock(es, tool, n - 1);
      assert es[..n] == es[..n - 1] + [es[n - 1]];
      TrackSnoc(es[..n - 1], es[n - 1]);
      assert es[..n][..n - 1] == es[..n - 1];
    }
  }

  predicate AllReadBackAt(codec: Codec, calls: map<int, ToolCall>) {
    forall k :: k in calls ==> ReadsBack(codec, calls[k].arguments)
  }

  // When a call's block stops, its buffer holds the whole argument text.
  lemma StopFindsWholeCall(codec: Codec, events: seq<Event>, calls: map<int, ToolCall>, n: nat, k: int)
    requires Literals(codec) && AllReadBackAt(codec, calls) && Fragments(codec, events, calls)
    requires n < |events| && events[n] == BlockStop(Some(k)) && k in calls
    requires After(codec, events[..n]).ending.Running?
    ensures var slots := After(codec, events[..n]).slots;
            && k in slots
            && slots[k].callId == calls[k].callId
            && Decoded(codec, slots[k].parts) == Some(calls[k].arguments)
  {
    hide After, Project, Track, PiecesIn;
    var block := Project(events, k);
    var soFar := Project(events[..n], k);
    ProjectNext(events, n, k);
    ProjectPrefix(events, n + 1, k);
    assert soFar + [events[n]] <= block;
    var m := |soFar|;
    assert block[m] == events[n];
    assert m == |block| - 1;
    assert soFar == block[..m];
    OpenBlock(block, Tool(calls[k].callId, calls[k].toolName), m);
    BlocksAreIndependent(codec, events[..n], k);
    StopAddsNoPiece(block);
    DecodesPrinted(codec, PiecesIn(block), calls[k].arguments);
  }

  lemma ProjectNext(events: seq<Event>, n: nat, k: int)
    requires n < |events| && Addresses(events[n], k)
    ensures Project(events[..n + 1], k) == Project(events[..n], k) + [events[n]]
  {
    assert events[..n + 1][..n] == events[..n];
  }

  lemma StopAddsNoPiece(es: seq<Event>)
    requires es != [] && es[|es| - 1].BlockStop?
    ensures PiecesIn(es) == PiecesIn(es[..|es| - 1])
  {
  }

  lemma DecodesPrinted(codec: Codec, parts: seq<string>, arguments: Arguments)
    requires Literals(codec) && ReadsBack(codec, arguments)
    requires Concatenated(parts) == codec.dumps(arguments) || (Concatenated(parts) == "" && arguments == map[])
    ensures Decoded(codec, parts) == Some(arguments)
  {
  }

  // A stop of a block that is not a call finds no buffer.
  lemma {:induction false} NoForeignBuffers(codec: Codec, events: seq<Event>, calls: map<int, ToolCall>, n: nat)
    requires n <= |events| && After(codec, events[..n]).ending.Running?
    requires forall e :: e in events && e.BlockStart? && e.index.Some? && e.tool.Some? ==> e.index.value in calls
    ensures forall k :: k in After(codec, events[..n]).slots ==> k in calls
  {
    hide Decoded, MergedUsage, After;
    if n == 0 {
      NothingYet(codec, events);
    } else {
      AfterNext(codec, events, n - 1);
      NoForeignBuffers(codec, events, calls, n - 1);
      assert events[n - 1] in events;
    }
  }

  lemma {:induction false} FragmentsRun(codec: Codec, events: seq<Event>, calls: map<int, ToolCall>, n: nat)
    requires Literals(codec) && AllReadBackAt(codec, calls) && Fragments(codec, events, calls) && n <= |events|
    ensures var p := After(codec, events[..n]);
            && p.ending.Running?
            && Texts(p.emitted) == TextOf(events[..n])
            && Ends(p.emitted) == EndsIn(events[..n], calls)
  {
    hide After, Fragments, Texts, Ends, Step, TextOf, EndsIn;
    if n == 0 {
      NothingYet(codec, events);
      EmptyViews(events, calls);
    } else {
      FragmentsRun(codec, events, calls, n - 1);
      AfterNext(codec, events, n - 1);
      FragmentsNext(codec, events, calls, n - 1);
      PrefixViews(events, calls, n - 1);
      ViewsConcat(After(codec, events[..n - 1]).emitted, Yielded(codec, After(codec, events[..n - 1]), events[n - 1]));
    }
  }

  lemma EmptyViews(events: seq<Event>, calls: map<int, ToolCall>)
    ensures TextOf(events[..0]) == "" == Texts([])
    ensures EndsIn(events[..0], calls) == [] == Ends([])
  {
  }

  function EndIn(e: Event, calls: map<int, ToolCall>): seq<LlmChunk> {
    if e.BlockStop? && e.index.Some? && e.index.value in calls
    then [ToolCallEnd(calls[e.index.value].callId, calls[e.index.value].arguments)] else []
  }

  lemma PrefixViews(events: seq<Event>, calls: map<int, ToolCall>, n: nat)
    requires n < |events|
    ensures TextOf(events[..n + 1]) == TextOf(events[..n]) + EventText(events[n])
    ensures EndsIn(events[..n + 1], calls) == EndsIn(events[..n], calls) + EndIn(events[n], calls)
  {
    assert events[..n + 1][..n] == events[..n];
  }

  // One more event of a printed message.
  lemma FragmentsNext(codec: Codec, events: seq<Event>, calls: map<int, ToolCall>, n: nat)
    requires Literals(codec) && AllReadBackAt(codec, calls) && Fragments(codec, events, calls) && n < |events|
    requires After(codec, events[..n]).ending.Running?
    ensures var p, e := After(codec, events[..n]), events[n];
            && Step(codec, p, e).ending.Running?
            && Step(codec, p, e).emitted == p.emitted + Yielded(codec, p, e)
            && Texts(Yielded(codec, p, e)) == EventText(e)
            && Ends(Yielded(codec, p, e)) == EndIn(e, calls)
  {
    hide After, Decoded, MergedUsage, BlockFor;
    var p, e := After(codec, events[..n]), events[n];
    assert e in events;
    NoForeignBuffers(codec, events, calls, n);
    if e.BlockStop? && e.index.Some? && e.index.value in calls {
      assert e == BlockStop(Some(e.index.value));
      StopFindsWholeCall(codec, events, calls, n, e.index.value);
    }
    SingleViews(Yielded(codec, p, e));
  }

  lemma SingleViews(chunks: seq<LlmChunk>)
    requires |chunks| <= 1
    ensures Texts(chunks) == if chunks != [] && chunks[0].TextChunk? then chunks[0].text else ""
    ensures Ends(chunks) == if chunks != [] && chunks[0].ToolCallEnd? then chunks else []
  {
    if chunks != [] {
      assert chunks[1..] == [] && chunks == [chunks[0]];
    }
  }

  // However the blocks of a message are cut and interleaved, once the message stops the
  // stream has yielded its text and ended each call, as its block stopped, with the
  // call's own id and arguments.
  lemma PrintedMessageReassembles(codec: Codec, events: seq<Event>, calls: map<int, ToolCall>)
    requires Literals(codec) && AllReadBackAt(codec, calls) && Fragments(codec, events, calls)
    ensures var p := After(codec, events + [MessageStop]);
            && p.ending == Finished
            && Texts(p.emitted) == TextOf(events)
            && Ends(p.emitted) == EndsIn(events, calls)
  {
    hide Fragments, Texts, Ends, TextOf, EndsIn;
    FragmentsRun(codec, events, calls, |events|);
    assert events[..|events|] == events;
    var all := events + [MessageStop];
    assert all[..|all| - 1] == events;
    var p := After(codec, events);
    var finish := [Finish(p.reason, p.usage)];
    FinishViews(finish[0]);
    ViewsConcat(p.emitted, finish);
  }

  lemma FinishViews(chunk: LlmChunk)
    requires chunk.Finish?
    ensures Texts([chunk]) == "" && Ends([chunk]) == []
  {
    assert [chunk][1..] == [];
  }
}
