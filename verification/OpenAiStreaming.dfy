/** The OpenAI streaming translator (`providers/openai/streaming.py`).

    A `Chunk` is one decoded SSE payload after the translator's own `isinstance`
    tests: a field of the wrong type reads as absent, and an id that is not a string
    reads as its `str()`. */
module OpenAiStreaming {
  import opened JsonValue
  import opened StreamedCalls
  import opened ToolCalls
  import opened Usage
  import opened Wrappers

  datatype Delta = Delta(index: Option<int>, id: Option<string>, name: Option<string>, arguments: Option<string>)

  datatype ChoiceDelta = ChoiceDelta(content: Option<string>, toolCalls: seq<Delta>)

  datatype FirstChoice =
    | NoChoices
    | NotADict
    | Choice(delta: Option<ChoiceDelta>, finishReason: Option<string>)

  datatype Chunk = Chunk(usage: Option<TokenUsage>, choice: FirstChoice)

  type Slots = map<int, Buffer>

  // An absent field and an empty string are both falsy.
  function Given(field: Option<string>): string {
    if field.Some? then field.value else ""
  }

  function Backfilled(buffer: Buffer, d: Delta): Buffer {
    buffer.(callId := if buffer.callId == "" then Given(d.id) else buffer.callId,
            toolName := if buffer.toolName == "" then Given(d.name) else buffer.toolName)
  }

  function PartsOf(d: Delta): seq<string> {
    if d.arguments.Some? then [d.arguments.value] else []
  }

  function Absorbed(slots: Slots, d: Delta): Slots {
    if d.index.None? then slots
    else
      var k := d.index.value;
      var buffer := if k in slots then Backfilled(slots[k], d) else Buffer(Given(d.id), Given(d.name), []);
      slots[k := buffer.(parts := buffer.parts + PartsOf(d))]
  }

  function Announced(slots: Slots, d: Delta): seq<LlmChunk> {
    if d.index.Some? && d.index.value !in slots then [ToolCallStart(Given(d.id), Given(d.name))] else []
  }

  function AbsorbAll(slots: Slots, ds: seq<Delta>): Slots {
    if ds == [] then slots else Absorbed(AbsorbAll(slots, ds[..|ds| - 1]), ds[|ds| - 1])
  }

  function AnnounceAll(slots: Slots, ds: seq<Delta>): seq<LlmChunk> {
    if ds == [] then []
    else
      var front := ds[..|ds| - 1];
      AnnounceAll(slots, front) + Announced(AbsorbAll(slots, front), ds[|ds| - 1])
  }

  // The tool-call fragments and the text a chunk carries.
  function DeltasOf(chunk: Chunk): seq<Delta> {
    if chunk.choice.Choice? && chunk.choice.delta.Some? then chunk.choice.delta.value.toolCalls else []
  }

  function TextIn(chunk: Chunk): string {
    if chunk.choice.Choice? && chunk.choice.delta.Some? then Given(chunk.choice.delta.value.content) else ""
  }

  function EmittedFor(slots: Slots, chunk: Chunk): seq<LlmChunk> {
    (if TextIn(chunk) != "" then [TextChunk(TextIn(chunk))] else []) + AnnounceAll(slots, DeltasOf(chunk))
  }

  // The translator's variables after some chunks.
  datatype Progress = Progress(
    slots: Slots, emitted: seq<LlmChunk>, reason: string, usage: Option<TokenUsage>, sawChoices: bool)

  function Step(p: Progress, chunk: Chunk): Progress {
    var reason := if chunk.choice.Choice? then Given(chunk.choice.finishReason) else "";
    Progress(
      AbsorbAll(p.slots, DeltasOf(chunk)),
      p.emitted + EmittedFor(p.slots, chunk),
      if reason != "" then reason else p.reason,
      if chunk.usage.Some? then chunk.usage else p.usage,
      p.sawChoices || !chunk.choice.NoChoices?)
  }

  function After(chunks: seq<Chunk>): Progress {
    if chunks == [] then Progress(map[], [], "", None, false)
    else Step(After(chunks[..|chunks| - 1]), chunks[|chunks| - 1])
  }

  // ---------- flushing ----------

  predicate IsLeast(keys: set<int>, k: int) {
    k in keys && forall j :: j in keys ==> k <= j
  }

  lemma AnyOf<K>(keys: set<K>) returns (k: K)
    requires keys != {}
    ensures k in keys
  {
    k :| k in keys;
  }

  lemma {:induction false} LeastExists(keys: set<int>)
    requires keys != {}
    ensures exists k :: IsLeast(keys, k)
    decreases |keys|
  {
    var any := AnyOf(keys);
    var rest := keys - {any};
    assert forall j :: j in keys ==> j == any || j in rest;
    if rest == {} {
      assert IsLeast(keys, any);
    } else {
      LeastExists(rest);
      var least :| IsLeast(rest, least);
      assert IsLeast(keys, if any <= least then any else least);
    }
  }

  // `sorted(tool_buffers.keys())`
  function SortedKeys(keys: set<int>): (r: seq<int>)
    ensures forall k :: k in r <==> k in keys
    decreases |keys|
  {
    if keys == {} then []
    else
      LeastExists(keys);
      var least :| IsLeast(keys, least);
      [least] + SortedKeys(keys - {least})
  }

  ghost predicate Ascending(s: seq<int>) {
    s == [] || ((forall k :: k in s[1..] ==> s[0] < k) && Ascending(s[1..]))
  }

  lemma {:induction false} SortedAscends(keys: set<int>)
    ensures Ascending(SortedKeys(keys))
    decreases |keys|
  {
    if keys != {} {
      SortedAscends(keys - {SortedKeys(keys)[0]});
    }
  }

  function FlushAll(codec: Codec, slots: Slots, keys: seq<int>): Result<seq<LlmChunk>, string>
    requires forall i :: 0 <= i < |keys| ==> keys[i] in slots
  {
    if keys == [] then Ok([])
    else
      var buffer := slots[keys[0]];
      match Decoded(codec, buffer.parts)
      case None => Err(buffer.callId)
      case Some(arguments) =>
        Prepended([ToolCallEnd(buffer.callId, arguments)], FlushAll(codec, slots, keys[1..]))
  }

  function Prepended(first: seq<LlmChunk>, rest: Result<seq<LlmChunk>, string>): Result<seq<LlmChunk>, string> {
    if rest.Err? then rest else Ok(first + rest.value)
  }

  function Flushed(codec: Codec, slots: Slots): Result<seq<LlmChunk>, string> {
    FlushAll(codec, slots, SortedKeys(slots.Keys))
  }

  function Translation(codec: Codec, chunks: seq<Chunk>): Streamed {
    var p := After(chunks);
    match Flushed(codec, p.slots)
    case Err(callId) => Streamed(p.emitted, Some(callId))
    case Ok(ends) =>
      var finish := if p.sawChoices || p.usage.Some? then [Finish(p.reason, p.usage)] else [];
      Streamed(p.emitted + ends + finish, None)
  }

  // ---------- the translator ----------

  // The `tool_buffers` dictionary that the helpers below update in place.
  class ToolBuffers {
    var slots: Slots

    constructor ()
      ensures slots == map[]
    {
      slots := map[];
    }

    method Backfill(k: int, d: Delta)
      requires k in slots
      modifies this
      ensures slots == old(slots)[k := Backfilled(old(slots)[k], d)]
    {
      var buffer := slots[k];
      if buffer.callId == "" && Given(d.id) != "" {
        buffer := buffer.(callId := Given(d.id));
      }
      if buffer.toolName == "" && Given(d.name) != "" {
        buffer := buffer.(toolName := Given(d.name));
      }
      slots := slots[k := buffer];
    }

    method Absorb(d: Delta) returns (started: Option<LlmChunk>)
      modifies this
      ensures slots == Absorbed(old(slots), d)
      ensures (if started.Some? then [started.value] else []) == Announced(old(slots), d)
    {
      started := None;
      if d.index.None? {
        return;
      }
      var k := d.index.value;
      if k !in slots {
        slots := slots[k := Buffer(Given(d.id), Given(d.name), [])];
        started := Some(ToolCallStart(Given(d.id), Given(d.name)));
      } else {
        Backfill(k, d);
      }
      if d.arguments.Some? {
        slots := slots[k := slots[k].(parts := slots[k].parts + [d.arguments.value])];
      } else {
        assert slots[k].parts + [] == slots[k].parts;
      }
      assert slots[k] == Absorbed(old(slots), d)[k];
    }

    // On a decode error the exception leaves the dictionary as it is.
    method Flush(codec: Codec) returns (r: Result<seq<LlmChunk>, string>)
      modifies this
      ensures r == Flushed(codec, old(slots))
      ensures slots == if r.Ok? then map[] else old(slots)
    {
      hide Decoded, SortedKeys;
      var keys, emitted := SortedKeys(slots.Keys), [];
      assert keys[0..] == keys;
      PrependedNothing(FlushAll(codec, slots, keys));
      for i := 0 to |keys|
        invariant slots == old(slots)
        invariant FlushAll(codec, slots, keys) == Prepended(emitted, FlushAll(codec, slots, keys[i..]))
      {
        assert keys[i] in keys;
        var buffer := slots[keys[i]];
        assert keys[i..][0] == keys[i] && keys[i..][1..] == keys[i + 1..];
        var arguments := Decoded(codec, buffer.parts);
        if arguments.None? {
          return Err(buffer.callId);
        }
        var end := [ToolCallEnd(buffer.callId, arguments.value)];
        PrependedTwice(emitted, end, FlushAll(codec, slots, keys[i + 1..]));
        emitted := emitted + end;
      }
      assert keys[|keys|..] == [];
      assert emitted + [] == emitted;
      slots := map[];
      r := Ok(emitted);
    }
  }

  lemma PrependedNothing(rest: Result<seq<LlmChunk>, string>)
    ensures Prepended([], rest) == rest
  {
    if rest.Ok? {
      assert [] + rest.value == rest.value;
    }
  }

  lemma PrependedTwice(a: seq<LlmChunk>, b: seq<LlmChunk>, rest: Result<seq<LlmChunk>, string>)
    ensures Prepended(a, Prepended(b, rest)) == Prepended(a + b, rest)
  {
    if rest.Ok? {
      assert a + b + rest.value == a + (b + rest.value);
    }
  }

  lemma AbsorbNone(slots: Slots)
    ensures AbsorbAll(slots, []) == slots && AnnounceAll(slots, []) == []
  {
  }

  lemma AbsorbNext(slots: Slots, ds: seq<Delta>, i: nat)
    requires i < |ds|
    ensures AbsorbAll(slots, ds[..i + 1]) == Absorbed(AbsorbAll(slots, ds[..i]), ds[i])
    ensures AnnounceAll(slots, ds[..i + 1]) == AnnounceAll(slots, ds[..i]) + Announced(AbsorbAll(slots, ds[..i]), ds[i])
  {
    hide Absorbed, Announced;
    assert ds[..i + 1][..i] == ds[..i] && ds[..i + 1][i] == ds[i];
  }

  // A chunk without a usable choice moves nothing but the usage and the flag.
  lemma QuietChunk(slots: Slots, chunk: Chunk)
    requires !chunk.choice.Choice?
    ensures AbsorbAll(slots, DeltasOf(chunk)) == slots && EmittedFor(slots, chunk) == []
  {
  }

  method ProcessChoice(chunk: Chunk, buffers: ToolBuffers) returns (emitted: seq<LlmChunk>)
    modifies buffers
    ensures buffers.slots == AbsorbAll(old(buffers.slots), DeltasOf(chunk))
    ensures emitted == EmittedFor(old(buffers.slots), chunk)
  {
    hide Absorbed, Announced, AbsorbAll, AnnounceAll;
    emitted := [];
    AbsorbNone(buffers.slots);
    if !chunk.choice.Choice? || chunk.choice.delta.None? {
      return;
    }
    var delta := chunk.choice.delta.value;
    if Given(delta.content) != "" {
      emitted := [TextChunk(Given(delta.content))];
    }
    ghost var text, start := emitted, buffers.slots;
    var ds := delta.toolCalls;
    for i := 0 to |ds|
      invariant buffers.slots == AbsorbAll(start, ds[..i])
      invariant emitted == text + AnnounceAll(start, ds[..i])
    {
      AbsorbNext(start, ds, i);
      var started := buffers.Absorb(ds[i]);
      if started.Some? {
        emitted := emitted + [started.value];
      }
    }
    assert ds[..|ds|] == ds;
  }

  method TranslateChunks(codec: Codec, chunks: seq<Chunk>) returns (s: Streamed)
    ensures s == Translation(codec, chunks)
  {
    hide Flushed, AbsorbAll, EmittedFor;
    var buffers := new ToolBuffers();
    var emitted: seq<LlmChunk> := [];
    var reason, sawChoices := "", false;
    var usage: Option<TokenUsage> := None;
    for i := 0 to |chunks|
      invariant fresh(buffers)
      invariant After(chunks[..i]) == Progress(buffers.slots, emitted, reason, usage, sawChoices)
    {
      var chunk := chunks[i];
      assert chunks[..i + 1][..i] == chunks[..i];
      if !chunk.choice.Choice? {
        QuietChunk(buffers.slots, chunk);
        assert emitted + [] == emitted;
      }
      if chunk.usage.Some? {
        usage := chunk.usage;
      }
      if chunk.choice.NoChoices? {
        continue;
      }
      sawChoices := true;
      if chunk.choice.NotADict? {
        continue;
      }
      var produced := ProcessChoice(chunk, buffers);
      emitted := emitted + produced;
      if Given(chunk.choice.finishReason) != "" {
        reason := Given(chunk.choice.finishReason);
      }
    }
    assert chunks[..|chunks|] == chunks;
    var flushed := buffers.Flush(codec);
    match flushed
    case Err(callId) => s := Streamed(emitted, Some(callId));
    case Ok(ends) =>
      emitted := emitted + ends;
      if sawChoices || usage.Some? {
        emitted := emitted + [Finish(reason, usage)];
      }
      s := Streamed(emitted, None);
  }
}
