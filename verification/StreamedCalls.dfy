/** What the streaming translators of both providers share: the chunks they yield, the
    per-call buffer of argument fragments and the decoding of the joined fragments. */
module StreamedCalls {
  import opened JsonValue
  import opened ToolCalls
  import opened Usage
  import opened Wrappers

  // `json.loads` (None for a decode error) and `json.dumps` of an object.
  datatype Codec = Codec(loads: string -> Option<Json>, dumps: Arguments -> string)

  // What loading gives for the empty text, an error, and for a literal empty object.
  predicate Literals(codec: Codec) {
    codec.loads("").None? && codec.loads("{}") == Some(Object(map[]))
  }

  // These arguments survive being printed and loaded.
  predicate ReadsBack(codec: Codec, arguments: Arguments) {
    codec.loads(codec.dumps(arguments)) == Some(Object(arguments))
  }

  predicate AllReadBack(codec: Codec, calls: seq<ToolCall>) {
    forall c :: c in calls ==> ReadsBack(codec, c.arguments)
  }

  datatype LlmChunk =
    | TextChunk(text: string)
    | ToolCallStart(callId: string, toolName: string)
    | ToolCallEnd(callId: string, arguments: Arguments)
    | Finish(reason: string, usage: Option<TokenUsage>)

  // What an iteration over the translator gives: the chunks it yields, and the call a
  // StreamError complains about if it ends with one.
  datatype Streamed = Streamed(emitted: seq<LlmChunk>, failure: Option<string>)

  datatype Buffer = Buffer(callId: string, toolName: string, parts: seq<string>)

  function Concatenated(parts: seq<string>): string {
    if parts == [] then "" else parts[0] + Concatenated(parts[1..])
  }

  // The arguments of a finished buffer; None is the StreamError.
  function Decoded(codec: Codec, parts: seq<string>): Option<Arguments> {
    var raw := if Concatenated(parts) == "" then "{}" else Concatenated(parts);
    match codec.loads(raw)
    case None => None
    case Some(value) => Some(if value.Object? then value.fields else map["value" := value])
  }

  lemma {:induction false} ConcatenatedConcat(a: seq<string>, b: seq<string>)
    ensures Concatenated(a + b) == Concatenated(a) + Concatenated(b)
  {
    if a == [] {
      assert a + b == b;
    } else {
      assert (a + b)[1..] == a[1..] + b;
      ConcatenatedConcat(a[1..], b);
    }
  }

  function Texts(chunks: seq<LlmChunk>): string {
    if chunks == [] then ""
    else (if chunks[0].TextChunk? then chunks[0].text else "") + Texts(chunks[1..])
  }

  function Starts(chunks: seq<LlmChunk>): seq<LlmChunk> {
    if chunks == [] then []
    else (if chunks[0].ToolCallStart? then [chunks[0]] else []) + Starts(chunks[1..])
  }

  function Ends(chunks: seq<LlmChunk>): seq<LlmChunk> {
    if chunks == [] then []
    else (if chunks[0].ToolCallEnd? then [chunks[0]] else []) + Ends(chunks[1..])
  }

  lemma ViewsConcat(a: seq<LlmChunk>, b: seq<LlmChunk>)
    ensures Texts(a + b) == Texts(a) + Texts(b)
    ensures Starts(a + b) == Starts(a) + Starts(b)
    ensures Ends(a + b) == Ends(a) + Ends(b)
  {
    TextsConcat(a, b);
    StartsConcat(a, b);
    EndsConcat(a, b);
  }

  lemma {:induction false} TextsConcat(a: seq<LlmChunk>, b: seq<LlmChunk>)
    ensures Texts(a + b) == Texts(a) + Texts(b)
  {
    if a == [] {
      assert a + b == b;
    } else {
      assert (a + b)[1..] == a[1..] + b;
      TextsConcat(a[1..], b);
    }
  }

  lemma {:induction false} StartsConcat(a: seq<LlmChunk>, b: seq<LlmChunk>)
    ensures Starts(a + b) == Starts(a) + Starts(b)
  {
    if a == [] {
      assert a + b == b;
    } else {
      assert (a + b)[1..] == a[1..] + b;
      StartsConcat(a[1..], b);
    }
  }

  lemma {:induction false} EndsConcat(a: seq<LlmChunk>, b: seq<LlmChunk>)
    ensures Ends(a + b) == Ends(a) + Ends(b)
  {
    if a == [] {
      assert a + b == b;
    } else {
      assert (a + b)[1..] == a[1..] + b;
      EndsConcat(a[1..], b);
    }
  }

  lemma {:induction false} OnlyEnds(chunks: seq<LlmChunk>)
    requires forall i :: 0 <= i < |chunks| ==> chunks[i].ToolCallEnd?
    ensures Texts(chunks) == "" && Starts(chunks) == [] && Ends(chunks) == chunks
  {
    if chunks != [] {
      assert chunks[0].ToolCallEnd?;
      OnlyEnds(chunks[1..]);
      assert chunks == [chunks[0]] + chunks[1..];
    }
  }
}
