/** Agent messages to provider wire messages (`providers/translation.py`).
    Every role but the tool role becomes one wire message; a tool message becomes
    one TOOL wire message per result it carries. */
module Translation {
  import opened Wrappers
  import opened JsonValue
  import opened Messages
  import opened ToolCalls

  datatype Role = System | User | Assistant | Tool

  datatype MediaRef = MediaRef(kind: string, data: string, mediaType: string, sourceType: string)

  datatype WireMessage = WireMessage(
    role: Role,
    content: string,
    toolCalls: seq<ToolCall>,
    toolCallId: Option<string>,
    toolOutput: Json,
    cache: bool,
    media: seq<MediaRef>)

  // ---------- what the translation computes ----------

  function TextOf(blocks: seq<Block>): string {
    if blocks == [] then ""
    else TextOf(blocks[..|blocks| - 1]) + BlockText(blocks[|blocks| - 1])
  }

  function BlockText(b: Block): string {
    match b
    case TextBlock(text, _) => text
    case SummaryBlock(summary, _) => summary
    case _ => ""
  }

  function MediaOf(blocks: seq<Block>): seq<MediaRef> {
    if blocks == [] then []
    else MediaOf(blocks[..|blocks| - 1]) + BlockMedia(blocks[|blocks| - 1])
  }

  function BlockMedia(b: Block): seq<MediaRef> {
    match b
    case ImageBlock(data, mediaType, sourceType) => [MediaRef("image", data, mediaType, sourceType)]
    case DocumentBlock(data, mediaType, sourceType) => [MediaRef("document", data, mediaType, sourceType)]
    case _ => []
  }

  predicate HasCacheHint(blocks: seq<Block>) {
    exists i :: 0 <= i < |blocks| && blocks[i].TextBlock? && blocks[i].cache
  }

  function WireCall(use: ToolUse): ToolCall {
    ToolCall(use.callId, use.toolName, use.args)
  }

  function WireCalls(uses: seq<ToolUse>): (calls: seq<ToolCall>)
    ensures |calls| == |uses|
    ensures forall i :: 0 <= i < |uses| ==> calls[i] == WireCall(uses[i])
  {
    if uses == [] then [] else [WireCall(uses[0])] + WireCalls(uses[1..])
  }

  function ResultMessages(blocks: seq<Block>): seq<WireMessage> {
    if blocks == [] then []
    else (if blocks[0].ToolResultBlock? then [ResultMessage(blocks[0])] else []) + ResultMessages(blocks[1..])
  }

  function ResultMessage(b: Block): WireMessage
    requires b.ToolResultBlock?
  {
    WireMessage(Role.Tool, "", [], Some(b.callId), b.output, false, [])
  }

  function TextMessage(role: Role, calls: seq<ToolCall>, blocks: seq<Block>): WireMessage {
    WireMessage(role, TextOf(blocks), calls, None, Null, HasCacheHint(blocks), MediaOf(blocks))
  }

  function WireForm(m: Message): seq<WireMessage> {
    match m
    case SystemMessage(content) => [TextMessage(Role.System, [], content)]
    case UserMessage(content) => [TextMessage(Role.User, [], content)]
    case AssistantMessage(content) => [TextMessage(Role.Assistant, WireCalls(ToolUses(content)), content)]
    case ToolMessage(content) => ResultMessages(content)
  }

  function WireHistory(h: seq<Message>): seq<WireMessage> {
    if h == [] then [] else WireForm(h[0]) + WireHistory(h[1..])
  }

  // ---------- the loops of the source ----------

  method ConcatText(blocks: seq<Block>) returns (text: string)
    ensures text == TextOf(blocks)
  {
    text := "";
    for i := 0 to |blocks|
      invariant text == TextOf(blocks[..i])
    {
      assert blocks[..i + 1][..i] == blocks[..i];
      match blocks[i] {
        case TextBlock(t, _) => text := text + t;
        case SummaryBlock(t, _) => text := text + t;
        case _ => assert text + "" == text;
      }
    }
    assert blocks[..|blocks|] == blocks;
  }

  method CollectMedia(blocks: seq<Block>) returns (refs: seq<MediaRef>)
    ensures refs == MediaOf(blocks)
  {
    refs := [];
    for i := 0 to |blocks|
      invariant refs == MediaOf(blocks[..i])
    {
      assert blocks[..i + 1][..i] == blocks[..i];
      match blocks[i] {
        case ImageBlock(d, t, s) => refs := refs + [MediaRef("image", d, t, s)];
        case DocumentBlock(d, t, s) => refs := refs + [MediaRef("document", d, t, s)];
        case _ => assert refs + [] == refs;
      }
    }
    assert blocks[..|blocks|] == blocks;
  }

  method TranslateOne(m: Message) returns (ws: seq<WireMessage>)
    ensures ws == WireForm(m)
  {
    var text := ConcatText(m.content);
    var media := CollectMedia(m.content);
    var cacheHint := HasCacheHint(m.content);
    match m {
      case SystemMessage(_) => return [WireMessage(Role.System, text, [], None, Null, cacheHint, media)];
      case UserMessage(_) => return [WireMessage(Role.User, text, [], None, Null, cacheHint, media)];
      case AssistantMessage(content) =>
        return [WireMessage(Role.Assistant, text, WireCalls(ToolUses(content)), None, Null, cacheHint, media)];
      case ToolMessage(content) => return ResultMessages(content);
    }
  }

  method TranslateHistory(h: seq<Message>) returns (ws: seq<WireMessage>)
    ensures ws == WireHistory(h)
  {
    ws := [];
    for i := 0 to |h|
      invariant ws + WireHistory(h[i..]) == WireHistory(h)
    {
      var one := TranslateOne(h[i]);
      assert h[i..][1..] == h[i + 1..];
      assert (ws + one) + WireHistory(h[i + 1..]) == ws + (one + WireHistory(h[i + 1..]));
      ws := ws + one;
    }
    assert WireHistory(h[|h|..]) == [];
  }

  // ---------- pairing on the wire ----------

  // Reads the wire left to right with the ids still owed: an assistant message
  // with n calls must be followed by exactly its n TOOL messages, in order, and a
  // TOOL message may appear nowhere else.
  ghost predicate WirePaired(ws: seq<WireMessage>, owed: seq<string>) {
    if ws == [] then owed == []
    else if owed != [] then
      ws[0].role.Tool? && ws[0].toolCallId == Some(owed[0]) && WirePaired(ws[1..], owed[1..])
    else
      !ws[0].role.Tool? && WirePaired(ws[1..], WireIds(ws[0].toolCalls))
  }

  function WireIds(calls: seq<ToolCall>): (ids: seq<string>)
    ensures |ids| == |calls|
    ensures forall i :: 0 <= i < |calls| ==> ids[i] == calls[i].callId
  {
    if calls == [] then [] else [calls[0].callId] + WireIds(calls[1..])
  }

  lemma WireIdsOfUses(uses: seq<ToolUse>)
    ensures WireIds(WireCalls(uses)) == CallIds(uses)
  {
    assert forall i :: 0 <= i < |uses| ==> WireIds(WireCalls(uses))[i] == CallIds(uses)[i];
  }

  // Reading the TOOL messages of one tool message settles exactly its ids.
  lemma {:induction false} ReadResults(blocks: seq<Block>, rest: seq<WireMessage>, owed: seq<string>)
    ensures WirePaired(ResultMessages(blocks) + rest, owed) <==>
            ResultIds(blocks) <= owed && WirePaired(rest, owed[|ResultIds(blocks)|..])
  {
    if blocks == [] {
      assert ResultMessages(blocks) + rest == rest;
      assert owed[0..] == owed;
    } else if !blocks[0].ToolResultBlock? {
      assert ResultMessages(blocks) == ResultMessages(blocks[1..]);
      assert ResultIds(blocks) == ResultIds(blocks[1..]);
      ReadResults(blocks[1..], rest, owed);
    } else {
      var ws := ResultMessages(blocks) + rest;
      assert ws[1..] == ResultMessages(blocks[1..]) + rest;
      assert ResultIds(blocks)[1..] == ResultIds(blocks[1..]);
      if owed != [] {
        ReadResults(blocks[1..], rest, owed[1..]);
        PrefixTail(ResultIds(blocks), owed);
      }
    }
  }

  lemma PrefixTail<T>(a: seq<T>, b: seq<T>)
    requires a != [] && b != []
    ensures a <= b <==> a[0] == b[0] && a[1..] <= b[1..]
    ensures a <= b ==> b[1..][|a[1..]|..] == b[|a|..]
  {
    if a[0] == b[0] && a[1..] <= b[1..] {
      assert a == [a[0]] + a[1..] && b == [b[0]] + b[1..];
    }
  }

  lemma ReadOther(m: Message, rest: seq<WireMessage>)
    requires !m.ToolMessage?
    ensures WirePaired(WireForm(m) + rest, []) <==> WirePaired(rest, AskedIds(m))
  {
    var ws := WireForm(m) + rest;
    assert ws[1..] == rest;
    if m.AssistantMessage? {
      WireIdsOfUses(ToolUses(m.content));
    } else {
      assert WireIds(ws[0].toolCalls) == AskedIds(m);
    }
  }

  // A paired conversation stays paired on the wire.
  lemma {:induction false} TranslationKeepsPairing(h: seq<Message>)
    requires WellPaired(h)
    ensures WirePaired(WireHistory(h), [])
    decreases |h|
  {
    if h != [] {
      assert !h[0].ToolMessage?;
      if AskedIds(h[0]) == [] {
        SplitWellPaired(h, 1);
        TranslationKeepsPairing(h[1..]);
        ReadOther(h[0], WireHistory(h[1..]));
      } else {
        assert AskedIds(h[1]) == [];
        SplitWellPaired(h, 2);
        TranslationKeepsPairing(h[2..]);
        var rest := WireHistory(h[2..]);
        assert h[1..][1..] == h[2..];
        ReadResults(h[1].content, rest, AskedIds(h[0]));
        ReadOther(h[0], WireHistory(h[1..]));
      }
    }
  }

  // Tool messages that carry results and do not stand side by side. Both the agent
  // loop and the compactor produce only such histories.
  ghost predicate OneToolMessagePerExchange(h: seq<Message>) {
    forall i :: 0 <= i < |h| && h[i].ToolMessage? ==>
      ResultIds(h[i].content) != [] && (i + 1 < |h| ==> !h[i + 1].ToolMessage?)
  }

  lemma {:induction false} PairedWireComesFromPaired(h: seq<Message>)
    requires OneToolMessagePerExchange(h) && WirePaired(WireHistory(h), [])
    ensures WellPaired(h)
    decreases |h|
  {
    hide WellPaired, ResultIds, ResultMessages;
    if h == [] {
      NothingIsPaired();
    } else if h[0].ToolMessage? {
      ReadResults(h[0].content, WireHistory(h[1..]), []);
      assert false;
    } else {
      ReadOther(h[0], WireHistory(h[1..]));
      if AskedIds(h[0]) == [] {
        assert OneToolMessagePerExchange(h[1..]);
        PairedWireComesFromPaired(h[1..]);
        PrependPlain(h[0], h[1..]);
        assert [h[0]] + h[1..] == h;
      } else {
        AnswerFollows(h);
        PairedWireComesFromPaired(h[2..]);
        PrependExchange(h[0], h[1], h[2..]);
        assert [h[0], h[1]] + h[2..] == h;
      }
    }
  }

  lemma NothingIsPaired()
    ensures WellPaired([])
  {
  }

  // The wire loses nothing of the pairing: a wire that reads as paired comes from a
  // paired conversation.
  lemma WirePairingReflects(h: seq<Message>)
    requires OneToolMessagePerExchange(h)
    ensures WirePaired(WireHistory(h), []) <==> WellPaired(h)
  {
    hide WellPaired, WirePaired, WireHistory;
    if WellPaired(h) {
      TranslationKeepsPairing(h);
    }
    if WirePaired(WireHistory(h), []) {
      PairedWireComesFromPaired(h);
    }
  }

  lemma PrependPlain(m: Message, h: seq<Message>)
    requires ToolFree(m) && WellPaired(h)
    ensures WellPaired([m] + h)
  {
    assert WellPaired([m]);
    ConcatWellPaired([m], h);
  }

  lemma PrependExchange(asking: Message, answer: Message, h: seq<Message>)
    requires AskedIds(asking) != [] && WellPaired(h)
    requires answer.ToolMessage? && ResultIds(answer.content) == AskedIds(asking)
    ensures WellPaired([asking, answer] + h)
  {
    assert AskedIds(answer) == [] && asking.AssistantMessage?;
    assert WellPaired([asking, answer]);
    ConcatWellPaired([asking, answer], h);
  }

  // The tool message read while ids are owed answers all of them: were some left,
  // the next message would have to be a tool message too.
  lemma AnswerFollows(h: seq<Message>)
    requires OneToolMessagePerExchange(h)
    requires h != [] && AskedIds(h[0]) != []
    requires WirePaired(WireHistory(h[1..]), AskedIds(h[0]))
    ensures 2 <= |h| && h[1].ToolMessage? && ResultIds(h[1].content) == AskedIds(h[0])
    ensures OneToolMessagePerExchange(h[2..])
    ensures WirePaired(WireHistory(h[2..]), [])
  {
    OwedMeansTool(h[1..], AskedIds(h[0]));
    assert h[1..][1..] == h[2..];
    ReadResults(h[1].content, WireHistory(h[2..]), AskedIds(h[0]));
    var left := AskedIds(h[0])[|ResultIds(h[1].content)|..];
    if left != [] {
      OwedMeansTool(h[2..], left);
    }
    assert left == [];
    assert forall i :: 0 <= i < |h[2..]| ==> h[2..][i] == h[i + 2];
  }

  lemma OwedMeansTool(h: seq<Message>, owed: seq<string>)
    requires owed != [] && WirePaired(WireHistory(h), owed)
    requires h != [] && h[0].ToolMessage? ==> ResultIds(h[0].content) != []
    ensures h != [] && h[0].ToolMessage?
  {
  }

  // ---------- nothing is lost or reordered ----------

  function UsesOf(m: Message): seq<ToolUse> {
    if m.AssistantMessage? then ToolUses(m.content) else []
  }

  function AllUses(h: seq<Message>): seq<ToolUse> {
    if h == [] then [] else UsesOf(h[0]) + AllUses(h[1..])
  }

  function AllResults(h: seq<Message>): seq<(string, Json)> {
    if h == [] then []
    else (if h[0].ToolMessage? then Results(h[0].content) else []) + AllResults(h[1..])
  }

  function Results(blocks: seq<Block>): seq<(string, Json)> {
    if blocks == [] then []
    else (if blocks[0].ToolResultBlock? then [(blocks[0].callId, blocks[0].output)] else []) + Results(blocks[1..])
  }

  function CallsOnWire(ws: seq<WireMessage>): seq<ToolCall> {
    if ws == [] then [] else ws[0].toolCalls + CallsOnWire(ws[1..])
  }

  function ResultsOnWire(ws: seq<WireMessage>): seq<(string, Json)> {
    if ws == [] then []
    else (if ws[0].role.Tool? && ws[0].toolCallId.Some? then [(ws[0].toolCallId.value, ws[0].toolOutput)] else [])
         + ResultsOnWire(ws[1..])
  }

  lemma {:induction false} CallsOnWireConcat(a: seq<WireMessage>, b: seq<WireMessage>)
    ensures CallsOnWire(a + b) == CallsOnWire(a) + CallsOnWire(b)
  {
    if a == [] {
      assert a + b == b;
    } else {
      assert (a + b)[1..] == a[1..] + b;
      CallsOnWireConcat(a[1..], b);
    }
  }

  lemma {:induction false} ResultsOnWireConcat(a: seq<WireMessage>, b: seq<WireMessage>)
    ensures ResultsOnWire(a + b) == ResultsOnWire(a) + ResultsOnWire(b)
  {
    if a == [] {
      assert a + b == b;
    } else {
      assert (a + b)[1..] == a[1..] + b;
      ResultsOnWireConcat(a[1..], b);
    }
  }

  lemma {:induction false} ResultMessagesCarry(blocks: seq<Block>)
    ensures CallsOnWire(ResultMessages(blocks)) == []
    ensures ResultsOnWire(ResultMessages(blocks)) == Results(blocks)
  {
    if blocks != [] {
      ResultMessagesCarry(blocks[1..]);
      var first := if blocks[0].ToolResultBlock? then [ResultMessage(blocks[0])] else [];
      CallsOnWireConcat(first, ResultMessages(blocks[1..]));
      ResultsOnWireConcat(first, ResultMessages(blocks[1..]));
    }
  }

  lemma WireCallsConcat(a: seq<ToolUse>, b: seq<ToolUse>)
    ensures WireCalls(a + b) == WireCalls(a) + WireCalls(b)
  {
    assert forall i :: 0 <= i < |a + b| ==> WireCalls(a + b)[i] == (WireCalls(a) + WireCalls(b))[i];
  }

  // The wire carries every tool call and every tool result of the conversation, in
  // the same order and with the same arguments and outputs.
  lemma {:induction false} TranslationCarriesTools(h: seq<Message>)
    ensures CallsOnWire(WireHistory(h)) == WireCalls(AllUses(h))
    ensures ResultsOnWire(WireHistory(h)) == AllResults(h)
  {
    if h != [] {
      TranslationCarriesTools(h[1..]);
      CallsOnWireConcat(WireForm(h[0]), WireHistory(h[1..]));
      ResultsOnWireConcat(WireForm(h[0]), WireHistory(h[1..]));
      WireCallsConcat(UsesOf(h[0]), AllUses(h[1..]));
      if h[0].ToolMessage? {
        ResultMessagesCarry(h[0].content);
      } else {
        var w := WireForm(h[0])[0];
        assert WireForm(h[0])[1..] == [];
        assert CallsOnWire(WireForm(h[0])) == w.toolCalls;
      }
    }
  }
}
