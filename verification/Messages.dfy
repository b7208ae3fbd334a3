/** The agent's view of a conversation (`core/messages.py`): four roles, each
    carrying a tuple of content blocks, and the pairing rule between an
    assistant's tool calls and the tool results that answer them. */
module Messages {
  import opened Wrappers
  import opened JsonValue
  import opened ToolCalls

  datatype ToolUse = ToolUse(callId: string, toolName: string, args: Arguments)

  datatype Block =
    | TextBlock(text: string, cache: bool)
    | ToolUseBlock(use: ToolUse)
    | ToolResultBlock(callId: string, output: Json, isError: bool)
    | SummaryBlock(summary: string, originalCount: int)
    | ImageBlock(data: string, mediaType: string, sourceType: string)
    | DocumentBlock(data: string, mediaType: string, sourceType: string)

  datatype Message =
    | SystemMessage(content: seq<Block>)
    | UserMessage(content: seq<Block>)
    | AssistantMessage(content: seq<Block>)
    | ToolMessage(content: seq<Block>)

  function ToolUses(blocks: seq<Block>): seq<ToolUse> {
    if blocks == [] then []
    else (if blocks[0].ToolUseBlock? then [blocks[0].use] else []) + ToolUses(blocks[1..])
  }

  function CallIds(uses: seq<ToolUse>): (ids: seq<string>)
    ensures |ids| == |uses|
    ensures forall i :: 0 <= i < |uses| ==> ids[i] == uses[i].callId
  {
    if uses == [] then [] else [uses[0].callId] + CallIds(uses[1..])
  }

  // The ids a tool message answers, in order.
  function ResultIds(blocks: seq<Block>): seq<string> {
    if blocks == [] then []
    else (if blocks[0].ToolResultBlock? then [blocks[0].callId] else []) + ResultIds(blocks[1..])
  }

  // The ids an assistant message asks for; other roles ask for none.
  function AskedIds(m: Message): seq<string> {
    if m.AssistantMessage? then CallIds(ToolUses(m.content)) else []
  }

  // The pairing rule: an assistant message that asks for n >= 1 tool calls is
  // immediately followed by one tool message that answers exactly those ids in
  // order, and there is no other tool message.
  ghost predicate WellPaired(h: seq<Message>) {
    && (forall i :: 0 <= i < |h| && AskedIds(h[i]) != [] ==>
          i + 1 < |h| && h[i + 1].ToolMessage? && ResultIds(h[i + 1].content) == AskedIds(h[i]))
    && (forall i :: 0 <= i < |h| && h[i].ToolMessage? ==> 0 < i && AskedIds(h[i - 1]) != [])
  }

  // A message that neither asks for tools nor answers them.
  predicate ToolFree(m: Message) {
    !m.ToolMessage? && AskedIds(m) == []
  }

  lemma AppendPlain(h: seq<Message>, m: Message)
    requires WellPaired(h) && ToolFree(m)
    ensures WellPaired(h + [m])
  {
  }

  lemma AppendExchange(h: seq<Message>, asking: Message, answer: Message)
    requires WellPaired(h)
    requires AskedIds(asking) != [] && asking.AssistantMessage?
    requires answer.ToolMessage? && ResultIds(answer.content) == AskedIds(asking)
    ensures WellPaired(h + [asking] + [answer])
  {
    var g := h + [asking] + [answer];
    assert g[|h|] == asking && g[|h| + 1] == answer;
    assert forall i :: 0 <= i < |h| ==> g[i] == h[i];
  }

  // Cutting a paired conversation anywhere but between a question and its answer
  // leaves two paired conversations.
  lemma SplitWellPaired(h: seq<Message>, cut: nat)
    requires WellPaired(h) && cut <= |h|
    requires cut == |h| || !h[cut].ToolMessage?
    ensures WellPaired(h[..cut]) && WellPaired(h[cut..])
  {
    var front, back := h[..cut], h[cut..];
    forall i | 0 <= i < |front| && AskedIds(front[i]) != []
      ensures i + 1 < |front| && front[i + 1].ToolMessage? && ResultIds(front[i + 1].content) == AskedIds(front[i])
    {
      assert front[i] == h[i];
      assert h[i + 1].ToolMessage?;
    }
    forall i | 0 <= i < |back| && back[i].ToolMessage?
      ensures 0 < i && AskedIds(back[i - 1]) != []
    {
      assert back[i] == h[cut + i];
      if 0 < i { assert back[i - 1] == h[cut + i - 1]; }
    }
    forall i | 0 <= i < |back| && AskedIds(back[i]) != []
      ensures i + 1 < |back| && back[i + 1].ToolMessage? && ResultIds(back[i + 1].content) == AskedIds(back[i])
    {
      assert back[i] == h[cut + i];
      assert back[i + 1] == h[cut + i + 1];
    }
  }

  lemma ConcatWellPaired(a: seq<Message>, b: seq<Message>)
    requires WellPaired(a) && WellPaired(b)
    ensures WellPaired(a + b)
  {
    var h := a + b;
    forall i | 0 <= i < |h| && AskedIds(h[i]) != []
      ensures i + 1 < |h| && h[i + 1].ToolMessage? && ResultIds(h[i + 1].content) == AskedIds(h[i])
    {
      if i < |a| {
        assert h[i] == a[i] && h[i + 1] == a[i + 1];
      } else {
        assert h[i] == b[i - |a|] && h[i + 1] == b[i - |a| + 1];
      }
    }
    forall i | 0 <= i < |h| && h[i].ToolMessage?
      ensures 0 < i && AskedIds(h[i - 1]) != []
    {
      if i < |a| {
        assert h[i] == a[i] && h[i - 1] == a[i - 1];
      } else {
        assert h[i] == b[i - |a|];
        assert h[i - 1] == b[i - |a| - 1];
      }
    }
  }
}
