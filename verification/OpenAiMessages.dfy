/** The assistant message on the OpenAI wire (`providers/openai/messages.py`): printing
    one, and reading one back whole. */
module OpenAiMessages {
  import opened JsonValue
  import opened Lists
  import opened StreamedCalls
  import opened ToolCalls
  import opened Wrappers

  datatype RawArguments = Dict(fields: Arguments) | Text(json: string) | Other

  // An entry of `tool_calls`. `name` is None when the field is not a string.
  datatype WireCall =
    | NotACall
    | WireCall(id: string, name: Option<string>, arguments: RawArguments)

  datatype WireMessage = WireMessage(content: Option<string>, toolCalls: Option<seq<WireCall>>)

  function ToolCallToDict(codec: Codec, call: ToolCall): WireCall {
    WireCall(call.callId, Some(call.toolName), Text(codec.dumps(call.arguments)))
  }

  function PrintedCalls(codec: Codec, calls: seq<ToolCall>): (r: seq<WireCall>)
    ensures |r| == |calls| && forall i :: 0 <= i < |calls| ==> r[i] == ToolCallToDict(codec, calls[i])
  {
    if calls == [] then [] else [ToolCallToDict(codec, calls[0])] + PrintedCalls(codec, calls[1..])
  }

  function AssistantToDict(codec: Codec, content: string, calls: seq<ToolCall>): WireMessage {
    WireMessage(
      if content == "" then None else Some(content),
      if calls == [] then None else Some(PrintedCalls(codec, calls)))
  }

  function DecodeArguments(codec: Codec, raw: RawArguments): Arguments {
    match raw
    case Dict(fields) => fields
    case Other => map[]
    case Text(json) =>
      if json == "" || codec.loads(json).None? then map[]
      else if codec.loads(json).value.Object? then codec.loads(json).value.fields
      else map[]
  }

  function ToolCallFromDict(codec: Codec, item: WireCall): Option<ToolCall> {
    if item.NotACall? || item.name.None? || item.name.value == "" then None
    else Some(ToolCall(item.id, item.name.value, DecodeArguments(codec, item.arguments)))
  }

  function CallsFrom(codec: Codec, items: seq<WireCall>): seq<ToolCall> {
    if items == [] then []
    else
      var call := ToolCallFromDict(codec, items[0]);
      (if call.Some? then [call.value] else []) + CallsFrom(codec, items[1..])
  }

  function FromOpenAiMessage(codec: Codec, message: WireMessage): (string, seq<ToolCall>) {
    (if message.content.Some? then message.content.value else "",
     if message.toolCalls.Some? then CallsFrom(codec, message.toolCalls.value) else [])
  }

  // A printed message reads back as it was.
  lemma MessageRoundTrip(codec: Codec, content: string, calls: seq<ToolCall>)
    requires Literals(codec) && AllReadBack(codec, calls)
    requires forall c :: c in calls ==> c.toolName != ""
    ensures FromOpenAiMessage(codec, AssistantToDict(codec, content, calls)) == (content, calls)
  {
    CallsRoundTrip(codec, calls);
  }

  lemma {:induction false} CallsRoundTrip(codec: Codec, calls: seq<ToolCall>)
    requires Literals(codec) && AllReadBack(codec, calls)
    requires forall c :: c in calls ==> c.toolName != ""
    ensures CallsFrom(codec, PrintedCalls(codec, calls)) == calls
  {
    if calls != [] {
      var call := calls[0];
      assert ReadsBack(codec, call.arguments);
      assert PrintedCalls(codec, calls)[1..] == PrintedCalls(codec, calls[1..]);
      assert ToolCallFromDict(codec, ToolCallToDict(codec, call)) == Some(call);
      CallsRoundTrip(codec, calls[1..]);
      assert calls == [call] + calls[1..];
    }
  }

  predicate Named(item: WireCall) {
    item.WireCall? && item.name.Some? && item.name.value != ""
  }

  // An entry read as a call: arguments given as an object, or as text that denotes one,
  // and none otherwise.
  ghost predicate ReadAsCall(codec: Codec, item: WireCall, call: ToolCall) {
    && item.WireCall? && call.callId == item.id && Some(call.toolName) == item.name
    && match item.arguments
       case Dict(fields) => call.arguments == fields
       case Other => call.arguments == map[]
       case Text("") => call.arguments == map[]
       case Text(json) =>
         match codec.loads(json)
         case Some(Object(fields)) => call.arguments == fields
         case _ => call.arguments == map[]
  }

  // Any list of entries reads as the calls of those that have a name, in order.
  lemma {:induction false} CallsReadInOrder(codec: Codec, items: seq<WireCall>) returns (kept: seq<WireCall>)
    ensures Selects(items, kept, Named) && |kept| == |CallsFrom(codec, items)|
    ensures forall i :: 0 <= i < |kept| ==> ReadAsCall(codec, kept[i], CallsFrom(codec, items)[i])
  {
    hide Selects, ReadAsCall, DecodeArguments;
    if items == [] {
      kept := [];
      SelectsNothing(items, kept, Named);
    } else {
      var front, last := items[..|items| - 1], items[|items| - 1];
      kept := CallsReadInOrder(codec, front);
      SelectsOneMore(front, kept, Named, last);
      assert items == front + [last];
      CallsFromSnoc(codec, front, last);
      if Named(last) {
        CallIsRead(codec, last);
        kept := kept + [last];
      }
    }
  }

  lemma CallIsRead(codec: Codec, item: WireCall)
    requires Named(item)
    ensures ToolCallFromDict(codec, item).Some? && ReadAsCall(codec, item, ToolCallFromDict(codec, item).value)
  {
  }

  lemma {:induction false} CallsFromSnoc(codec: Codec, items: seq<WireCall>, last: WireCall)
    ensures CallsFrom(codec, items + [last])
         == CallsFrom(codec, items)
            + if ToolCallFromDict(codec, last).Some? then [ToolCallFromDict(codec, last).value] else []
  {
    hide ToolCallFromDict;
    if items == [] {
      assert (items + [last])[1..] == [] && (items + [last])[0] == last;
    } else {
      assert (items + [last])[1..] == items[1..] + [last] && (items + [last])[0] == items[0];
      CallsFromSnoc(codec, items[1..], last);
    }
  }

  // The stream decodes an argument text as the whole-message reader does exactly when
  // the text is empty or denotes an object: otherwise the stream fails or wraps the
  // value where the reader falls back to no arguments.
  lemma DecodersAgreeExactly(codec: Codec, parts: seq<string>)
    requires Literals(codec)
    ensures Decoded(codec, parts) == Some(DecodeArguments(codec, Text(Concatenated(parts))))
            <==> || Concatenated(parts) == ""
                 || (codec.loads(Concatenated(parts)).Some? && codec.loads(Concatenated(parts)).value.Object?)
  {
    var json := Concatenated(parts);
    if json != "" && codec.loads(json).Some? && !codec.loads(json).value.Object? {
      assert "value" in map["value" := codec.loads(json).value];
      assert Decoded(codec, parts).value != map[];
    }
  }
}
