/** What the provider reads off the wire (`providers/translation.py`): role, text, media
    and cache hint of every message, message by message. */
module WireMeaning {
  import opened Wrappers
  import opened JsonValue
  import opened Lists
  import opened Messages
  import opened ToolCalls
  import opened Translation

  // What a block adds to the text of its message: text and summaries, nothing else.
  ghost predicate Contributes(b: Block, part: string) {
    && (b.TextBlock? ==> part == b.text)
    && (b.SummaryBlock? ==> part == b.summary)
    && (!b.TextBlock? && !b.SummaryBlock? ==> part == "")
  }

  ghost predicate Reads(blocks: seq<Block>, text: string) {
    exists parts: seq<string> ::
      Strung(parts, text) && |parts| == |blocks| && forall i :: 0 <= i < |blocks| ==> Contributes(blocks[i], parts[i])
  }

  // And what it adds to the media: images and documents, under their own kind.
  ghost predicate Attaches(b: Block, refs: seq<MediaRef>) {
    && (b.ImageBlock? ==> refs == [MediaRef("image", b.data, b.mediaType, b.sourceType)])
    && (b.DocumentBlock? ==> refs == [MediaRef("document", b.data, b.mediaType, b.sourceType)])
    && (!b.ImageBlock? && !b.DocumentBlock? ==> refs == [])
  }

  ghost predicate Shows(blocks: seq<Block>, media: seq<MediaRef>) {
    exists parts: seq<seq<MediaRef>> ::
      Strung(parts, media) && |parts| == |blocks| && forall i :: 0 <= i < |blocks| ==> Attaches(blocks[i], parts[i])
  }

  lemma OneMoreText(b: Block)
    ensures Contributes(b, BlockText(b))
  {
  }

  lemma OneMoreRef(b: Block)
    ensures Attaches(b, BlockMedia(b))
  {
  }

  lemma {:induction false} TextParts(blocks: seq<Block>) returns (parts: seq<string>)
    ensures Strung(parts, TextOf(blocks)) && |parts| == |blocks|
    ensures forall i :: 0 <= i < |blocks| ==> Contributes(blocks[i], parts[i])
  {
    if blocks == [] {
      parts := [];
    } else {
      var front, last := blocks[..|blocks| - 1], blocks[|blocks| - 1];
      assert TextOf(blocks) == TextOf(front) + BlockText(last);
      hide TextOf, BlockText, Strung, Contributes;
      parts := TextParts(front);
      StrungSnoc(parts, TextOf(front), BlockText(last));
      OneMoreText(last);
      parts := parts + [BlockText(last)];
    }
  }

  lemma {:induction false} MediaParts(blocks: seq<Block>) returns (parts: seq<seq<MediaRef>>)
    ensures Strung(parts, MediaOf(blocks)) && |parts| == |blocks|
    ensures forall i :: 0 <= i < |blocks| ==> Attaches(blocks[i], parts[i])
  {
    if blocks == [] {
      parts := [];
    } else {
      var front, last := blocks[..|blocks| - 1], blocks[|blocks| - 1];
      assert MediaOf(blocks) == MediaOf(front) + BlockMedia(last);
      hide MediaOf, BlockMedia, Strung, Attaches;
      parts := MediaParts(front);
      StrungSnoc(parts, MediaOf(front), BlockMedia(last));
      OneMoreRef(last);
      parts := parts + [BlockMedia(last)];
    }
  }

  lemma ContentOnWire(blocks: seq<Block>)
    ensures Reads(blocks, TextOf(blocks)) && Shows(blocks, MediaOf(blocks))
    ensures HasCacheHint(blocks) <==> exists b :: b in blocks && b.TextBlock? && b.cache
  {
    var parts := TextParts(blocks);
    var refs := MediaParts(blocks);
    if b :| b in blocks && b.TextBlock? && b.cache {
      var i :| 0 <= i < |blocks| && blocks[i] == b;
    }
  }

  // A message of any role but the tool's is one wire message of that role, which reads
  // as its text and summaries in order, shows its media in order, and hints at caching
  // when a text block of it does.
  ghost predicate OnWire(m: Message, wire: WireMessage) {
    && (m.SystemMessage? ==> wire.role == Role.System)
    && (m.UserMessage? ==> wire.role == Role.User)
    && (m.AssistantMessage? ==> wire.role == Role.Assistant)
    && Reads(m.content, wire.content) && Shows(m.content, wire.media)
    && (wire.cache <==> exists b :: b in m.content && b.TextBlock? && b.cache)
    && wire.toolCallId == None && wire.toolOutput == Null
  }

  lemma PlainMessageOnWire(m: Message)
    requires !m.ToolMessage?
    ensures |WireForm(m)| == 1 && OnWire(m, WireForm(m)[0])
  {
    ContentOnWire(m.content);
    hide TextOf, MediaOf, Reads, Shows, HasCacheHint;
  }

  // A result on the wire: its id and output, under the tool's role and nothing else.
  ghost predicate ResultOnWire(b: Block, wire: WireMessage) {
    && b.ToolResultBlock? && wire.role == Role.Tool
    && wire.toolCallId == Some(b.callId) && wire.toolOutput == b.output
    && wire.content == "" && wire.toolCalls == [] && !wire.cache && wire.media == []
  }

  lemma {:induction false} ResultsOnTheWire(blocks: seq<Block>)
    requires forall i :: 0 <= i < |blocks| ==> blocks[i].ToolResultBlock?
    ensures |ResultMessages(blocks)| == |blocks|
    ensures forall i :: 0 <= i < |blocks| ==> ResultOnWire(blocks[i], ResultMessages(blocks)[i])
  {
    if blocks != [] {
      ResultsOnTheWire(blocks[1..]);
    }
  }

  // Message by message: what stands before, the form of one message, what stands after.
  lemma {:induction false} WireInOrder(h: seq<Message>, i: nat)
    requires i < |h|
    ensures WireHistory(h) == WireHistory(h[..i]) + WireForm(h[i]) + WireHistory(h[i + 1..])
  {
    hide WireForm;
    if i == 0 {
      assert h[..0] == [];
      assert WireHistory(h[..0]) + WireForm(h[0]) == WireForm(h[0]);
    } else {
      WireInOrder(h[1..], i - 1);
      assert h[..i][0] == h[0] && h[..i][1..] == h[1..][..i - 1] && h[1..][i..] == h[i + 1..];
      var a, b, c, d := WireForm(h[0]), WireHistory(h[1..][..i - 1]), WireForm(h[i]), WireHistory(h[i + 1..]);
      assert a + (b + c + d) == a + b + c + d;
    }
  }
}
