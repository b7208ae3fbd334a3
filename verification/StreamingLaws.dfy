/** What the OpenAI translator yields does not depend on how a message was cut into
    chunks or how its calls were interleaved, and it is what reading the whole message
    gives. */
module StreamingLaws {
  import opened JsonValue
  import opened OpenAiMessages
  import opened OpenAiStreaming
  import opened StreamedCalls
  import opened ToolCalls
  import opened Wrappers

  // ---------- what a stream says, independently of the translator ----------

  function Deltas(chunks: seq<Chunk>): seq<Delta> {
    if chunks == [] then [] else Deltas(chunks[..|chunks| - 1]) + DeltasOf(chunks[|chunks| - 1])
  }

  function TextOf(chunks: seq<Chunk>): string {
    if chunks == [] then "" else TextOf(chunks[..|chunks| - 1]) + TextIn(chunks[|chunks| - 1])
  }

  // The fragments addressed to one index, in order.
  function Project(ds: seq<Delta>, k: int): seq<Delta> {
    if ds == [] then []
    else Project(ds[..|ds| - 1], k) + (if ds[|ds| - 1].index == Some(k) then [ds[|ds| - 1]] else [])
  }

  // The first id, and the first name, that is not empty.
  function FirstId(ps: seq<Delta>): string {
    if ps == [] then "" else if Given(ps[0].id) != "" then Given(ps[0].id) else FirstId(ps[1..])
  }

  function FirstName(ps: seq<Delta>): string {
    if ps == [] then "" else if Given(ps[0].name) != "" then Given(ps[0].name) else FirstName(ps[1..])
  }

  function AllParts(ps: seq<Delta>): seq<string> {
    if ps == [] then [] else PartsOf(ps[0]) + AllParts(ps[1..])
  }

  // ---------- the buffers ----------

  lemma {:induction false} FirstGivenSnoc(ps: seq<Delta>, d: Delta)
    ensures FirstId(ps + [d]) == if FirstId(ps) != "" then FirstId(ps) else Given(d.id)
    ensures FirstName(ps + [d]) == if FirstName(ps) != "" then FirstName(ps) else Given(d.name)
  {
    hide Given;
    if ps == [] {
      assert ps + [d] == [d] && [d][1..] == [];
    } else {
      assert (ps + [d])[1..] == ps[1..] + [d];
      FirstGivenSnoc(ps[1..], d);
    }
  }

  lemma {:induction false} AllPartsSnoc(ps: seq<Delta>, d: Delta)
    ensures AllParts(ps + [d]) == AllParts(ps) + PartsOf(d)
  {
    if ps == [] {
      assert ps + [d] == [d] && [d][1..] == [];
    } else {
      assert (ps + [d])[1..] == ps[1..] + [d];
      AllPartsSnoc(ps[1..], d);
    }
  }

  // A buffer exists for exactly the indices addressed, and holds the first id, the
  // first name and all the argument parts of its own fragments.
  lemma {:induction false} BufferIsSummary(ds: seq<Delta>, k: int)
    ensures k in AbsorbAll(map[], ds) <==> Project(ds, k) != []
    ensures k in AbsorbAll(map[], ds) ==>
              AbsorbAll(map[], ds)[k]
              == Buffer(FirstId(Project(ds, k)), FirstName(Project(ds, k)), AllParts(Project(ds, k)))
  {
    if ds != [] {
      var front, d := ds[..|ds| - 1], ds[|ds| - 1];
      BufferIsSummary(front, k);
      if d.index == Some(k) {
        var mine := Project(front, k);
        FirstGivenSnoc(mine, d);
        AllPartsSnoc(mine, d);
        assert Project(ds, k) == mine + [d];
        assert AbsorbAll(map[], ds) == Absorbed(AbsorbAll(map[], front), d);
      } else {
        assert Project(ds, k) == Project(front, k);
      }
    }
  }

  lemma {:induction false} AbsorbConcat(slots: Slots, a: seq<Delta>, b: seq<Delta>)
    ensures AbsorbAll(slots, a + b) == AbsorbAll(AbsorbAll(slots, a), b)
    ensures AnnounceAll(slots, a + b) == AnnounceAll(slots, a) + AnnounceAll(AbsorbAll(slots, a), b)
  {
    hide Absorbed, Announced;
    if b == [] {
      assert a + b == a;
    } else {
      assert (a + b)[..|a + b| - 1] == a + b[..|b| - 1];
      AbsorbConcat(slots, a, b[..|b| - 1]);
    }
  }

  lemma {:induction false} OnlyAnnouncements(slots: Slots, ds: seq<Delta>)
    ensures Texts(AnnounceAll(slots, ds)) == "" && Ends(AnnounceAll(slots, ds)) == []
    ensures Starts(AnnounceAll(slots, ds)) == AnnounceAll(slots, ds)
  {
    hide AbsorbAll;
    if ds != [] {
      var front, d := ds[..|ds| - 1], ds[|ds| - 1];
      OnlyAnnouncements(slots, front);
      var last := Announced(AbsorbAll(slots, front), d);
      ViewsConcat(AnnounceAll(slots, front), last);
      assert |last| <= 1;
      if last != [] {
        assert last == [last[0]] && last[1..] == [];
      }
    }
  }

  // The loop's state after any chunks.
  lemma {:induction false} AfterChunks(chunks: seq<Chunk>)
    ensures var p := After(chunks);
            && p.slots == AbsorbAll(map[], Deltas(chunks))
            && Texts(p.emitted) == TextOf(chunks)
            && Starts(p.emitted) == AnnounceAll(map[], Deltas(chunks))
            && Ends(p.emitted) == []
  {
    hide AbsorbAll, AnnounceAll, EmittedFor, Texts, Starts, Ends, DeltasOf, TextIn;
    if chunks == [] {
      AbsorbNone(map[]);
      NoViews();
    } else {
      var front, chunk := chunks[..|chunks| - 1], chunks[|chunks| - 1];
      var before := After(front);
      AfterChunks(front);
      AbsorbConcat(map[], Deltas(front), DeltasOf(chunk));
      EmittedViews(before.slots, chunk);
      ViewsConcat(before.emitted, EmittedFor(before.slots, chunk));
    }
  }

  lemma NoViews()
    ensures Texts([]) == "" && Starts([]) == [] && Ends([]) == []
  {
  }

  lemma EmittedViews(slots: Slots, chunk: Chunk)
    ensures var emitted := EmittedFor(slots, chunk);
            && Texts(emitted) == TextIn(chunk)
            && Starts(emitted) == AnnounceAll(slots, DeltasOf(chunk))
            && Ends(emitted) == []
  {
    hide AnnounceAll, Texts, Starts, Ends, DeltasOf, TextIn;
    var text := if TextIn(chunk) != "" then [TextChunk(TextIn(chunk))] else [];
    OnlyAnnouncements(slots, DeltasOf(chunk));
    ViewsConcat(text, AnnounceAll(slots, DeltasOf(chunk)));
    TextOnly(TextIn(chunk));
  }

  lemma TextOnly(text: string)
    ensures var chunks := if text != "" then [TextChunk(text)] else [];
            Texts(chunks) == text && Starts(chunks) == [] && Ends(chunks) == []
  {
    assert [TextChunk(text)][1..] == [];
  }

  // ---------- the whole translation ----------

  lemma {:induction false} FlushOnlyEnds(codec: Codec, slots: Slots, keys: seq<int>)
    requires forall i :: 0 <= i < |keys| ==> keys[i] in slots
    ensures var r := FlushAll(codec, slots, keys);
            r.Ok? ==> |r.value| == |keys| && forall i :: 0 <= i < |r.value| ==> r.value[i].ToolCallEnd?
  {
    hide Decoded;
    if keys != [] {
      FlushOnlyEnds(codec, slots, keys[1..]);
    }
  }

  lemma TranslationViews(codec: Codec, chunks: seq<Chunk>)
    ensures var s, flushed := Translation(codec, chunks), Flushed(codec, AbsorbAll(map[], Deltas(chunks)));
            && Texts(s.emitted) == TextOf(chunks)
            && Starts(s.emitted) == AnnounceAll(map[], Deltas(chunks))
            && (flushed.Ok? ==> s.failure.None? && Ends(s.emitted) == flushed.value)
            && (flushed.Err? ==> s.failure == Some(flushed.error) && Ends(s.emitted) == [])
  {
    hide After, FlushAll, AbsorbAll, AnnounceAll;
    var p := After(chunks);
    AfterChunks(chunks);
    var flushed := Flushed(codec, p.slots);
    if flushed.Ok? {
      FlushOnlyEnds(codec, p.slots, SortedKeys(p.slots.Keys));
      var ends := flushed.value;
      var finish := if p.sawChoices || p.usage.Some? then [Finish(p.reason, p.usage)] else [];
      assert Texts(finish) == "" && Starts(finish) == [] && Ends(finish) == [];
      OnlyEnds(ends);
      ViewsConcat(p.emitted, ends);
      ViewsConcat(p.emitted + ends, finish);
    }
  }

  // Two lists of fragments for one index that a reader cannot tell apart.
  predicate SameCall(p: seq<Delta>, q: seq<Delta>) {
    && (p == [] <==> q == [])
    && FirstId(p) == FirstId(q)
    && Concatenated(AllParts(p)) == Concatenated(AllParts(q))
  }

  lemma {:induction false} FlushCongruent(codec: Codec, a: Slots, b: Slots, keys: seq<int>)
    requires forall i :: 0 <= i < |keys| ==> keys[i] in a && keys[i] in b
    requires forall i :: 0 <= i < |keys| ==>
               && a[keys[i]].callId == b[keys[i]].callId
               && Concatenated(a[keys[i]].parts) == Concatenated(b[keys[i]].parts)
    ensures FlushAll(codec, a, keys) == FlushAll(codec, b, keys)
  {
    if keys != [] {
      var rest := keys[1..];
      assert forall i :: 0 <= i < |rest| ==> rest[i] == keys[i + 1];
      FlushCongruent(codec, a, b, rest);
    }
  }

  // For all streams, well-formed or not: if each index received the same first id and
  // the same argument text, however it was cut and interleaved with the others, the
  // same calls end, with the same arguments, in the same order, or the same call fails.
  lemma CutsAndInterleavingsAgree(codec: Codec, a: seq<Chunk>, b: seq<Chunk>)
    requires TextOf(a) == TextOf(b)
    requires forall k: int :: SameCall(Project(Deltas(a), k), Project(Deltas(b), k))
    ensures var s, t := Translation(codec, a), Translation(codec, b);
            Texts(s.emitted) == Texts(t.emitted) && Ends(s.emitted) == Ends(t.emitted) && s.failure == t.failure
  {
    hide Translation, AbsorbAll, FlushAll, SortedKeys;
    var x, y := AbsorbAll(map[], Deltas(a)), AbsorbAll(map[], Deltas(b));
    forall k: int
      ensures k in x <==> k in y
      ensures k in x ==> x[k].callId == y[k].callId && Concatenated(x[k].parts) == Concatenated(y[k].parts)
    {
      assert SameCall(Project(Deltas(a), k), Project(Deltas(b), k));
      BufferIsSummary(Deltas(a), k);
      BufferIsSummary(Deltas(b), k);
    }
    assert x.Keys == y.Keys;
    var keys := SortedKeys(x.Keys);
    forall i | 0 <= i < |keys| ensures keys[i] in x && keys[i] in y {
      assert keys[i] in keys;
    }
    FlushCongruent(codec, x, y, keys);
    TranslationViews(codec, a);
    TranslationViews(codec, b);
  }

  lemma {:induction false} ProjectConcat(a: seq<Delta>, b: seq<Delta>, k: int)
    ensures Project(a + b, k) == Project(a, k) + Project(b, k)
  {
    if b == [] {
      assert a + b == a;
    } else {
      assert (a + b)[..|a + b| - 1] == a + b[..|b| - 1];
      ProjectConcat(a, b[..|b| - 1], k);
    }
  }

  // Neighbouring fragments of different calls may trade places.
  lemma InterleavingIsFree(before: seq<Delta>, x: Delta, y: Delta, after: seq<Delta>, k: int)
    requires x.index != y.index
    ensures Project(before + [x, y] + after, k) == Project(before + [y, x] + after, k)
  {
    ProjectConcat(before + [x, y], after, k);
    ProjectConcat(before + [y, x], after, k);
    ProjectConcat(before, [x, y], k);
    ProjectConcat(before, [y, x], k);
    ProjectConcat([x], [y], k);
    ProjectConcat([y], [x], k);
    assert [x] + [y] == [x, y] && [y] + [x] == [y, x];
    assert Project([], k) == [];
    assert [x][..0] == [] && [y][..0] == [];
  }

  lemma {:induction false} SummaryConcat(a: seq<Delta>, b: seq<Delta>)
    ensures FirstId(a + b) == if FirstId(a) != "" then FirstId(a) else FirstId(b)
    ensures AllParts(a + b) == AllParts(a) + AllParts(b)
  {
    if b == [] {
      assert a + b == a;
    } else {
      var front, d := b[..|b| - 1], b[|b| - 1];
      assert a + b == (a + front) + [d] && b == front + [d];
      SummaryConcat(a, front);
      FirstGivenSnoc(a + front, d);
      AllPartsSnoc(a + front, d);
      FirstGivenSnoc(front, d);
      AllPartsSnoc(front, d);
    }
  }

  // A fragment may be cut in two at any point of its argument text.
  lemma CuttingIsFree(before: seq<Delta>, d: Delta, u: string, v: string, after: seq<Delta>)
    requires d.arguments == Some(u + v)
    ensures SameCall(before + [d] + after,
                     before + [d.(arguments := Some(u)), Delta(d.index, None, None, Some(v))] + after)
  {
    hide FirstId, AllParts, Concatenated;
    var pieces := [d.(arguments := Some(u)), Delta(d.index, None, None, Some(v))];
    CutPiece(d, u, v);
    SummaryConcat(before + [d], after);
    SummaryConcat(before + pieces, after);
    SummaryConcat(before, [d]);
    SummaryConcat(before, pieces);
    ConcatenatedMiddle(AllParts(before), AllParts([d]), AllParts(after));
    ConcatenatedMiddle(AllParts(before), AllParts(pieces), AllParts(after));
  }

  lemma CutPiece(d: Delta, u: string, v: string)
    requires d.arguments == Some(u + v)
    ensures SameCall([d], [d.(arguments := Some(u)), Delta(d.index, None, None, Some(v))])
  {
    var head, tail := d.(arguments := Some(u)), Delta(d.index, None, None, Some(v));
    assert [d][1..] == [] && [head, tail][1..] == [tail] && [tail][1..] == [];
    assert AllParts([d]) == [u + v] && AllParts([head, tail]) == [u, v];
    assert [u + v][1..] == [] && [u, v][1..] == [v] && [v][1..] == [];
  }

  lemma ConcatenatedMiddle(a: seq<string>, b: seq<string>, c: seq<string>)
    ensures Concatenated(a + b + c) == Concatenated(a) + Concatenated(b) + Concatenated(c)
  {
    ConcatenatedConcat(a + b, c);
    ConcatenatedConcat(a, b);
  }

  // ---------- a printed message, cut anywhere ----------

  // Fragments of one printed call: id and name come first, and the argument text is
  // what the pieces spell.
  predicate PiecesOf(codec: Codec, ps: seq<Delta>, call: ToolCall) {
    && ps != []
    && Given(ps[0].id) == call.callId
    && Given(ps[0].name) == call.toolName
    && (call.callId == "" ==> forall d :: d in ps ==> Given(d.id) == "")
    && Concatenated(AllParts(ps)) == codec.dumps(call.arguments)
  }

  // Any cutting of the printed message, any interleaving of its calls.
  ghost predicate Fragments(codec: Codec, chunks: seq<Chunk>, content: string, calls: seq<ToolCall>) {
    && TextOf(chunks) == content
    && forall k: int ::
         if 0 <= k < |calls| then PiecesOf(codec, Project(Deltas(chunks), k), calls[k])
         else Project(Deltas(chunks), k) == []
  }

  function EndsOf(calls: seq<ToolCall>): seq<LlmChunk> {
    if calls == [] then [] else [ToolCallEnd(calls[0].callId, calls[0].arguments)] + EndsOf(calls[1..])
  }

  lemma {:induction false} PiecesId(codec: Codec, ps: seq<Delta>, call: ToolCall)
    requires PiecesOf(codec, ps, call)
    ensures FirstId(ps) == call.callId
  {
    if call.callId == "" {
      NoId(ps);
    }
  }

  lemma {:induction false} NoId(ps: seq<Delta>)
    requires forall d :: d in ps ==> Given(d.id) == ""
    ensures FirstId(ps) == ""
  {
    if ps != [] {
      assert ps[0] in ps;
      NoId(ps[1..]);
    }
  }

  // `low`, `low + 1`, up to but not including `high`.
  function UpTo(low: nat, high: nat): (r: seq<int>)
    requires low <= high
    ensures |r| == high - low
    ensures forall i :: 0 <= i < |r| ==> r[i] == low + i
    decreases high - low
  {
    if low == high then [] else [low] + UpTo(low + 1, high)
  }

  // The only ascending list of exactly the numbers from `from` to `to`.
  lemma {:induction false} AscendingIsUpTo(s: seq<int>, low: nat, high: nat)
    requires Ascending(s) && low <= high
    requires forall k :: k in s <==> low <= k < high
    ensures s == UpTo(low, high)
    decreases high - low
  {
    assert low in s <==> low <= low < high;
    if s != [] {
      var rest := s[1..];
      assert s == [s[0]] + rest;
      assert s[0] in s;
      assert low <= s[0] < high;
      assert low in s;
      assert low == s[0] || low in rest;
      forall k ensures k in rest <==> low + 1 <= k < high {
        assert k in s <==> k == s[0] || k in rest;
      }
      AscendingIsUpTo(s[1..], low + 1, high);
    }
  }

  lemma {:induction false} FlushPrinted(codec: Codec, slots: Slots, calls: seq<ToolCall>, from: nat)
    requires Literals(codec) && AllReadBack(codec, calls) && from <= |calls|
    requires forall k :: 0 <= k < |calls| ==>
               && k in slots && slots[k].callId == calls[k].callId
               && Concatenated(slots[k].parts) == codec.dumps(calls[k].arguments)
    ensures FlushAll(codec, slots, UpTo(from, |calls|)) == Ok(EndsOf(calls[from..]))
    decreases |calls| - from
  {
    if from < |calls| {
      FlushPrinted(codec, slots, calls, from + 1);
      assert calls[from..][0] == calls[from] && calls[from..][1..] == calls[from + 1..];
      assert UpTo(from, |calls|)[1..] == UpTo(from + 1, |calls|);
      var arguments := calls[from].arguments;
      assert ReadsBack(codec, calls[from].arguments);
      assert Decoded(codec, slots[from].parts) == Some(arguments);
    }
  }

  // Print, cut anywhere, reassemble: the stream yields the message's text and the
  // calls' ids and arguments in order, as reading the printed message whole does.
  lemma PrintedMessageReassembles(codec: Codec, chunks: seq<Chunk>, content: string, calls: seq<ToolCall>)
    requires Literals(codec) && AllReadBack(codec, calls)
    requires forall c :: c in calls ==> c.toolName != ""
    requires Fragments(codec, chunks, content, calls)
    ensures var s := Translation(codec, chunks);
            var (text, read) := FromOpenAiMessage(codec, AssistantToDict(codec, content, calls));
            && s.failure.None?
            && Texts(s.emitted) == text == content
            && Ends(s.emitted) == EndsOf(read) == EndsOf(calls)
  {
    hide Translation, AbsorbAll, FlushAll, SortedKeys, FromOpenAiMessage, AssistantToDict, EndsOf;
    var ds := Deltas(chunks);
    var slots := AbsorbAll(map[], ds);
    forall k: int
      ensures k in slots <==> 0 <= k < |calls|
      ensures 0 <= k < |calls| ==>
                slots[k].callId == calls[k].callId && Concatenated(slots[k].parts) == codec.dumps(calls[k].arguments)
    {
      BufferIsSummary(ds, k);
      if 0 <= k < |calls| {
        assert PiecesOf(codec, Project(ds, k), calls[k]);
        PiecesId(codec, Project(ds, k), calls[k]);
      }
    }
    SortedAscends(slots.Keys);
    AscendingIsUpTo(SortedKeys(slots.Keys), 0, |calls|);
    FlushPrinted(codec, slots, calls, 0);
    assert calls[0..] == calls;
    TranslationViews(codec, chunks);
    MessageRoundTrip(codec, content, calls);
  }

  // The message in one piece: one chunk, one fragment for each call.
  function WholeDeltas(codec: Codec, calls: seq<ToolCall>): (ds: seq<Delta>)
    ensures |ds| == |calls|
    ensures forall i :: 0 <= i < |ds| ==>
              ds[i] == Delta(Some(i), Some(calls[i].callId), Some(calls[i].toolName),
                             Some(codec.dumps(calls[i].arguments)))
  {
    if calls == [] then [] else
    var last := calls[|calls| - 1];
    WholeDeltas(codec, calls[..|calls| - 1])
    + [Delta(Some(|calls| - 1), Some(last.callId), Some(last.toolName), Some(codec.dumps(last.arguments)))]
  }

  lemma {:induction false} ProjectWhole(ds: seq<Delta>, k: int)
    requires forall i :: 0 <= i < |ds| ==> ds[i].index == Some(i)
    ensures Project(ds, k) == if 0 <= k < |ds| then [ds[k]] else []
  {
    if ds != [] {
      ProjectWhole(ds[..|ds| - 1], k);
    }
  }

  lemma WholePiece(codec: Codec, d: Delta, k: int, call: ToolCall)
    requires d == Delta(Some(k), Some(call.callId), Some(call.toolName), Some(codec.dumps(call.arguments)))
    ensures PiecesOf(codec, [d], call)
  {
    var json := codec.dumps(call.arguments);
    assert [d][1..] == [] && [json][1..] == [];
    assert AllParts([d]) == [json];
  }

  lemma SingleChunk(chunk: Chunk)
    ensures Deltas([chunk]) == DeltasOf(chunk) && TextOf([chunk]) == TextIn(chunk)
  {
    var chunks := [chunk];
    assert chunks[..|chunks| - 1] == [];
    assert [] + DeltasOf(chunk) == DeltasOf(chunk);
    assert "" + TextIn(chunk) == TextIn(chunk);
  }

  lemma WholeMessageIsFragments(codec: Codec, content: string, calls: seq<ToolCall>, reason: string)
    ensures var whole := ChoiceDelta(Some(content), WholeDeltas(codec, calls));
            Fragments(codec, [Chunk(None, Choice(Some(whole), Some(reason)))], content, calls)
  {
    hide PiecesOf, Project;
    var ds := WholeDeltas(codec, calls);
    var chunk := Chunk(None, Choice(Some(ChoiceDelta(Some(content), ds)), Some(reason)));
    var chunks := [chunk];
    SingleChunk(chunk);
    forall k: int
      ensures if 0 <= k < |calls| then PiecesOf(codec, Project(ds, k), calls[k]) else Project(ds, k) == []
    {
      ProjectWhole(ds, k);
      if 0 <= k < |calls| {
        WholePiece(codec, ds[k], k, calls[k]);
      }
    }
  }

  // ---------- announcements ----------

  // The indices in the order in which they first appear.
  function FirstSeen(ds: seq<Delta>): seq<int> {
    if ds == [] then []
    else
      var front, d := ds[..|ds| - 1], ds[|ds| - 1];
      FirstSeen(front) + (if d.index.Some? && Project(front, d.index.value) == [] then [d.index.value] else [])
  }

  ghost predicate NoRepeats(order: seq<int>) {
    forall i, j :: 0 <= i < j < |order| ==> order[i] != order[j]
  }

  lemma {:induction false} FirstSeenOnce(ds: seq<Delta>)
    ensures forall k :: k in FirstSeen(ds) <==> Project(ds, k) != []
    ensures NoRepeats(FirstSeen(ds))
  {
    if ds != [] {
      var front, d := ds[..|ds| - 1], ds[|ds| - 1];
      FirstSeenOnce(front);
      if d.index.Some? && Project(front, d.index.value) == [] {
        NoRepeatsSnoc(FirstSeen(front), d.index.value);
      }
    }
  }

  lemma NoRepeatsSnoc(order: seq<int>, k: int)
    requires NoRepeats(order) && k !in order
    ensures NoRepeats(order + [k])
  {
    forall i | 0 <= i < |order| ensures order[i] != k {
      assert order[i] in order;
    }
  }

  function Announcement(ds: seq<Delta>, k: int): LlmChunk
    requires Project(ds, k) != []
  {
    ToolCallStart(Given(Project(ds, k)[0].id), Given(Project(ds, k)[0].name))
  }

  // Every index addressed is announced once, when it first appears, with the id and
  // name its first fragment carries.
  lemma {:induction false} AnnouncedOnFirstSight(ds: seq<Delta>)
    ensures var order, starts := FirstSeen(ds), AnnounceAll(map[], ds);
            && |starts| == |order|
            && forall i :: 0 <= i < |order| ==>
                 Project(ds, order[i]) != [] && starts[i] == Announcement(ds, order[i])
  {
    hide AbsorbAll, Absorbed;
    if ds != [] {
      var front, d := ds[..|ds| - 1], ds[|ds| - 1];
      AnnouncedOnFirstSight(front);
      if d.index.Some? {
        BufferIsSummary(front, d.index.value);
      }
      var before := FirstSeen(front);
      forall i | 0 <= i < |before|
        ensures Project(ds, before[i]) != [] && Announcement(ds, before[i]) == Announcement(front, before[i])
      {
        assert Project(ds, before[i])[0] == Project(front, before[i])[0];
      }
    }
  }

  // So each call of a printed message is announced exactly once, by its id and name.
  lemma PrintedCallsAreAnnounced(codec: Codec, chunks: seq<Chunk>, content: string, calls: seq<ToolCall>)
    requires Fragments(codec, chunks, content, calls)
    ensures var order, starts := FirstSeen(Deltas(chunks)), Starts(Translation(codec, chunks).emitted);
            && |starts| == |order|
            && (forall k :: k in order <==> 0 <= k < |calls|)
            && NoRepeats(order)
            && (forall i :: 0 <= i < |order| ==>
                  0 <= order[i] < |calls|
                  && starts[i] == ToolCallStart(calls[order[i]].callId, calls[order[i]].toolName))
  {
    hide Translation, AnnounceAll, FirstSeen;
    var ds := Deltas(chunks);
    AnnouncedOnFirstSight(ds);
    FirstSeenOnce(ds);
    TranslationViews(codec, chunks);
    var order := FirstSeen(ds);
    forall k: int ensures k in order <==> 0 <= k < |calls| {
      assert k in order <==> Project(ds, k) != [];
    }
    forall i | 0 <= i < |order|
      ensures 0 <= order[i] < |calls|
      ensures PiecesOf(codec, Project(ds, order[i]), calls[order[i]])
    {
      assert order[i] in order;
    }
  }
}
