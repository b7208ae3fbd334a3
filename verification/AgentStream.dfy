/** The streaming twin of the tool-calling loop (`agents/loop.py`): the same run,
    exposed as a sequence of events. Its state lives in a mutable object that each
    step updates. */
module AgentStream {
  import opened Wrappers
  import opened JsonValue
  import opened Usage
  import opened Messages
  import opened ToolCalls
  import opened Translation
  import opened AgentLoop
  import opened AgentRuns

  datatype Event =
    | RunStarted
    | TextDelta(text: string)
    | ToolCallStarted(callId: string, toolId: string, toolName: string, args: Arguments)
    | ToolCallCompleted(callId: string, output: Json, isError: bool)
    | RunCompleted(result: RunResult)
    | RunFailed(error: AgentError)

  const MISSING_TOOL_ID := "phronesis.tools.unknown"

  // ---------- what a stream yields ----------

  function TextEvents(text: string): seq<Event> {
    if text == "" then [] else [TextDelta(text)]
  }

  function StartedEvent(tools: map<string, string>, call: ToolUse): Event {
    ToolCallStarted(call.callId, if call.toolName in tools then tools[call.toolName] else MISSING_TOOL_ID,
      call.toolName, call.args)
  }

  function StartedEvents(tools: map<string, string>, calls: seq<ToolUse>): seq<Event> {
    if calls == [] then []
    else StartedEvents(tools, calls[..|calls| - 1]) + [StartedEvent(tools, calls[|calls| - 1])]
  }

  function CompletedEvents(blocks: seq<Block>): seq<Event>
    requires forall b :: b in blocks ==> b.ToolResultBlock?
  {
    if blocks == [] then []
    else
      var b := blocks[|blocks| - 1];
      CompletedEvents(blocks[..|blocks| - 1]) + [ToolCallCompleted(b.callId, b.output, b.isError)]
  }

  function AnswerEvents(w: World, spec: AgentSpec, request: RunRequest, asked: RunState, k: int, response: Response)
    : seq<Event>
  {
    var usage := MergeReported(asked.usage, response.usage);
    if CheckBudget(request, usage, EstimateCost(spec.pricing, usage)).Some? then [] else
    var requested := Requested(response.toolCalls);
    if requested == [] then TextEvents(response.text) else
    var blocks := CallResults(w, spec.tools, k, requested, |requested|);
    TextEvents(response.text) + StartedEvents(spec.tools, requested)
      + (if blocks.Err? then []
         else (ResultsInOrder(w, spec.tools, k, requested, |requested|); CompletedEvents(blocks.value)))
  }

  // The events of one iteration, its terminal event aside.
  function StepEvents(w: World, spec: AgentSpec, request: RunRequest, st: RunState, k: int): seq<Event> {
    var built := w.build(k, st.history, st.pending);
    if built.Err? then [] else
    var answer := w.complete(k, WireHistory(built.value));
    if !answer.Answered? then []
    else AnswerEvents(w, spec, request, AbsorbInput(st), k, answer.response)
  }

  // A stream: the events yielded, and the foreign exception that cut it short, if any.
  datatype StreamRun = StreamRun(events: seq<Event>, escaped: Option<string>)

  function StreamFrom(w: World, spec: AgentSpec, request: RunRequest, st: RunState, k: int): StreamRun
    decreases IterationCap(spec, request) - k
  {
    if k >= IterationCap(spec, request) then
      StreamRun([RunFailed(MaxIterationsError(IterationCap(spec, request)))], None)
    else
      var events := StepEvents(w, spec, request, st, k + 1);
      match Step(w, spec, request, st, k + 1)
      case Next(next) =>
        var rest := StreamFrom(w, spec, request, next, k + 1);
        StreamRun(events + rest.events, rest.escaped)
      case Finished(result, _) => StreamRun(events + [RunCompleted(result)], None)
      case Aborted(AgentFailure(error), _) => StreamRun(events + [RunFailed(error)], None)
      case Aborted(Foreign(tag), _) => StreamRun(events, Some(tag))
  }

  function Stream(w: World, spec: AgentSpec, request: RunRequest, initial: Option<seq<Message>>): StreamRun {
    var rest := StreamFrom(w, spec, request, InitialState(spec, request, initial), 0);
    StreamRun([RunStarted] + rest.events, rest.escaped)
  }

  // ---------- the program ----------

  // `_StreamState`: what one streaming run mutates.
  class StreamState {
    var history: seq<Message>
    var userInput: Option<Message>
    var usage: TokenUsage
    var toolCalls: seq<ToolUse>
    var completed: bool

    ghost function Value(): RunState
      reads this
    {
      RunState(history, userInput, usage, toolCalls)
    }

    constructor (history: seq<Message>, userInput: Message)
      ensures Value() == RunState(history, Some(userInput), NO_USAGE, []) && !completed
    {
      this.history, this.userInput, usage := history, Some(userInput), NO_USAGE;
      toolCalls, completed := [], false;
    }
  }

  // The loop of `_execute_stream_step` that announces the requested calls.
  method AnnounceCalls(tools: map<string, string>, requested: seq<ToolUse>) returns (events: seq<Event>)
    ensures events == StartedEvents(tools, requested)
  {
    events := [];
    for i := 0 to |requested|
      invariant events == StartedEvents(tools, requested[..i])
    {
      var call := requested[i];
      assert requested[..i + 1][..i] == requested[..i];
      var toolId := if call.toolName in tools then tools[call.toolName] else MISSING_TOOL_ID;
      events := events + [ToolCallStarted(call.callId, toolId, call.toolName, call.args)];
    }
    assert requested[..|requested|] == requested;
  }

  // The loop of `_execute_stream_step` that reports the results.
  method ReportResults(blocks: seq<Block>) returns (events: seq<Event>)
    requires forall b :: b in blocks ==> b.ToolResultBlock?
    ensures events == CompletedEvents(blocks)
  {
    events := [];
    for i := 0 to |blocks|
      invariant events == CompletedEvents(blocks[..i])
    {
      var block := blocks[i];
      assert blocks[..i + 1][..i] == blocks[..i];
      events := events + [ToolCallCompleted(block.callId, block.output, block.isError)];
    }
    assert blocks[..|blocks|] == blocks;
  }

  // `_execute_stream_step`: runs one iteration against `state`, yielding its events.
  // A failure is what the step raises.
  method ExecuteStreamStep(w: World, spec: AgentSpec, request: RunRequest, state: StreamState, k: int)
    returns (events: seq<Event>, failure: Option<Failure>)
    requires !state.completed
    modifies state
    ensures var before := old(state.Value());
      var r := Step(w, spec, request, before, k);
      && state.Value() == r.state
      && (state.completed <==> r.Finished?)
      && events == StepEvents(w, spec, request, before, k) + (if r.Finished? then [RunCompleted(r.result)] else [])
      && failure == (if r.Aborted? then Some(r.failure) else None)
  {
    hide EstimateCost, CheckBudget, MergeReported, WireHistory, AssistantFrom, Requested, CallResults;
    hide StartedEvents, CompletedEvents, BuildFailure;
    events := [];
    var built := w.build(k, state.history, state.userInput);
    if built.Err? {
      return events, Some(BuildFailure(built.error));
    }
    if state.userInput.Some? {
      state.history := state.history + [state.userInput.value];
      state.userInput := None;
    }
    ghost var asked := state.Value();
    var wire := TranslateHistory(built.value);
    var answer := w.complete(k, wire);
    if answer.RaisedToolError? {
      return events, Some(Foreign(answer.tag));
    }
    if answer.RaisedOther? {
      return events, Some(AgentFailure(ProviderError));
    }
    var response := answer.response;
    state.usage := MergeReported(state.usage, response.usage);
    var cost := EstimateCost(spec.pricing, state.usage);
    var over := CheckBudget(request, state.usage, cost);
    if over.Some? {
      return events, Some(AgentFailure(over.value));
    }
    if response.text != "" {
      events := events + [TextDelta(response.text)];
    }
    var message, requested := AssistantMessageFromResponse(response);
    state.history := state.history + [message];
    state.toolCalls := state.toolCalls + requested;
    assert events == TextEvents(response.text);
    if requested == [] {
      var output := w.coerce(response.text);
      if output.None? {
        return events, Some(AgentFailure(OutputValidationError(response.text)));
      }
      var result := RunResult(output.value, state.usage, k, state.toolCalls, state.history, cost);
      events := events + [RunCompleted(result)];
      state.completed := true;
      return events, None;
    }
    var started := AnnounceCalls(spec.tools, requested);
    events := events + started;
    var blocks := ExecuteCalls(w, spec.tools, k, requested);
    if blocks.Err? {
      assert events + [] == events;
      return events, Some(AgentFailure(blocks.error));
    }
    ResultsInOrder(w, spec.tools, k, requested, |requested|);
    var completed := ReportResults(blocks.value);
    events := events + completed;
    state.history := state.history + [ToolMessage(blocks.value)];
    return events, None;
  }

  // `run_loop_stream`.
  method RunLoopStream(w: World, spec: AgentSpec, request: RunRequest, initial: Option<seq<Message>>)
    returns (events: seq<Event>, escaped: Option<string>)
    ensures StreamRun(events, escaped) == Stream(w, spec, request, initial)
  {
    hide StepEvents, Step;
    events := [RunStarted];
    var history := InitialHistory(spec, initial);
    var state := new StreamState(history, UserMessage([TextBlock(request.input, false)]));
    var iterations, cap := 0, IterationCap(spec, request);
    while iterations < cap
      invariant !state.completed
      invariant var rest := StreamFrom(w, spec, request, state.Value(), iterations);
        StreamRun(events + rest.events, rest.escaped) == Stream(w, spec, request, initial)
      decreases cap - iterations
    {
      iterations := iterations + 1;
      ghost var before, st := events, state.Value();
      var yielded, failure := ExecuteStreamStep(w, spec, request, state, iterations);
      events := events + yielded;
      if failure.Some? {
        assert yielded == StepEvents(w, spec, request, st, iterations);
        if failure.value.AgentFailure? {
          events := events + [RunFailed(failure.value.error)];
          assert events == before + (yielded + [RunFailed(failure.value.error)]);
          return events, None;
        }
        return events, Some(failure.value.tag);
      }
      if state.completed {
        return events, None;
      }
      ghost var rest := StreamFrom(w, spec, request, state.Value(), iterations);
      assert yielded == StepEvents(w, spec, request, st, iterations);
      assert before + (yielded + rest.events) == events + rest.events;
    }
    events := events + [RunFailed(MaxIterationsError(cap))];
    escaped := None;
  }

  // ---------- the stream refines the run ----------

  predicate IsTerminal(e: Event) {
    e.RunCompleted? || e.RunFailed?
  }

  function Terminal(s: StreamRun): Option<Event> {
    if s.events != [] && IsTerminal(s.events[|s.events| - 1]) then Some(s.events[|s.events| - 1]) else None
  }

  // How the stream of a run with this outcome must end.
  function ExpectedTerminal(out: RunOutcome): Option<Event> {
    match out
    case Completed(result) => Some(RunCompleted(result))
    case Raised(AgentFailure(error), _, _) => Some(RunFailed(error))
    case Raised(Foreign(_), _, _) => None
  }

  function ExpectedEscape(out: RunOutcome): Option<string> {
    match out
    case Raised(Foreign(tag), _, _) => Some(tag)
    case _ => None
  }

  lemma StepEventsNotTerminal(w: World, spec: AgentSpec, request: RunRequest, st: RunState, k: int)
    ensures forall e :: e in StepEvents(w, spec, request, st, k) ==> !IsTerminal(e) && !e.RunStarted?
  {
    hide WireHistory, Requested, StartedEvents, CompletedEvents, CallResults, EstimateCost, CheckBudget, MergeReported;
    var built := w.build(k, st.history, st.pending);
    if built.Ok? && w.complete(k, WireHistory(built.value)).Answered? {
      var requested := Requested(w.complete(k, WireHistory(built.value)).response.toolCalls);
      StartedNotTerminal(spec.tools, requested);
      var blocks := CallResults(w, spec.tools, k, requested, |requested|);
      if blocks.Ok? {
        ResultsInOrder(w, spec.tools, k, requested, |requested|);
        CompletedNotTerminal(blocks.value);
      }
    }
  }

  lemma {:induction false} StartedNotTerminal(tools: map<string, string>, calls: seq<ToolUse>)
    ensures forall e :: e in StartedEvents(tools, calls) ==> e.ToolCallStarted?
  {
    if calls != [] {
      StartedNotTerminal(tools, calls[..|calls| - 1]);
    }
  }

  lemma {:induction false} CompletedNotTerminal(blocks: seq<Block>)
    requires forall b :: b in blocks ==> b.ToolResultBlock?
    ensures forall e :: e in CompletedEvents(blocks) ==> e.ToolCallCompleted?
  {
    if blocks != [] {
      CompletedNotTerminal(blocks[..|blocks| - 1]);
    }
  }

  lemma {:induction false} StreamEndsAsRunEnds(w: World, spec: AgentSpec, request: RunRequest, st: RunState, k: int)
    ensures var s, out := StreamFrom(w, spec, request, st, k), RunFrom(w, spec, request, st, k);
      && Terminal(s) == ExpectedTerminal(out) && s.escaped == ExpectedEscape(out)
      && (forall i :: 0 <= i < |s.events| - 1 ==> !IsTerminal(s.events[i]))
      && (forall i :: 0 <= i < |s.events| ==> !s.events[i].RunStarted?)
      && (out.Completed? || out.failure.AgentFailure? ==> s.events != [])
    decreases IterationCap(spec, request) - k
  {
    hide Step, StepEvents;
    if k < IterationCap(spec, request) {
      StepEventsNotTerminal(w, spec, request, st, k + 1);
      var r := Step(w, spec, request, st, k + 1);
      if r.Next? {
        StreamEndsAsRunEnds(w, spec, request, r.state, k + 1);
        var rest := StreamFrom(w, spec, request, r.state, k + 1);
        assert rest.events != [] ==>
          StreamFrom(w, spec, request, st, k).events[|StreamFrom(w, spec, request, st, k).events| - 1]
            == rest.events[|rest.events| - 1];
      }
    }
  }

  // For the same providers, tools, builder and start, the stream ends in RunCompleted(r)
  // exactly when the run returns r, in RunFailed(e) exactly when the run raises the
  // agent error e, and lets an exception escape exactly when the run does. The
  // terminal event is unique and last, and RunStarted is unique and first.
  lemma StreamRefinesRun(w: World, spec: AgentSpec, request: RunRequest, initial: Option<seq<Message>>)
    ensures var s, out := Stream(w, spec, request, initial), Run(w, spec, request, initial);
      && (forall r :: Terminal(s) == Some(RunCompleted(r)) <==> out == Completed(r))
      && (forall e :: Terminal(s) == Some(RunFailed(e)) <==> out.Raised? && out.failure == AgentFailure(e))
      && (forall t :: s.escaped == Some(t) <==> out.Raised? && out.failure == Foreign(t))
      && (forall i :: 0 <= i < |s.events| - 1 ==> !IsTerminal(s.events[i]))
      && (forall i :: 0 <= i < |s.events| ==> (s.events[i].RunStarted? <==> i == 0))
  {
    hide StreamFrom, RunFrom;
    var st := InitialState(spec, request, initial);
    StreamEndsAsRunEnds(w, spec, request, st, 0);
    var s, rest := Stream(w, spec, request, initial), StreamFrom(w, spec, request, st, 0);
    assert forall i :: 0 < i < |s.events| ==> s.events[i] == rest.events[i - 1];
    var out := Run(w, spec, request, initial);
    assert Terminal(s) == ExpectedTerminal(out);
    assert s.escaped == ExpectedEscape(out);
  }

  // ---------- event grammar ----------

  // An observer reading the stream: between steps, after a step's text, collecting
  // the ids of started calls, expecting their completions in order, or done.
  datatype Phase =
    | Begin
    | BetweenSteps
    | AfterText
    | Starting(ids: seq<string>)
    | Completing(owed: seq<string>)
    | Ended
    | Rejected

  function Settle(owed: seq<string>): Phase {
    if owed == [] then BetweenSteps else Completing(owed)
  }

  function Read(p: Phase, e: Event): Phase {
    match p
    case Begin => if e.RunStarted? then BetweenSteps else Rejected
    case BetweenSteps =>
      if e.TextDelta? then AfterText
      else if e.ToolCallStarted? then Starting([e.callId])
      else if IsTerminal(e) then Ended else Rejected
    case AfterText =>
      if e.ToolCallStarted? then Starting([e.callId])
      else if IsTerminal(e) then Ended else Rejected
    case Starting(ids) =>
      if e.ToolCallStarted? then Starting(ids + [e.callId])
      else if e.ToolCallCompleted? && ids != [] && e.callId == ids[0] then Settle(ids[1..])
      else if e.RunFailed? then Ended else Rejected
    case Completing(owed) =>
      if e.ToolCallCompleted? && owed != [] && e.callId == owed[0] then Settle(owed[1..]) else Rejected
    case Ended => Rejected
    case Rejected => Rejected
  }

  function ReadAll(p: Phase, events: seq<Event>): Phase {
    if events == [] then p else Read(ReadAll(p, events[..|events| - 1]), events[|events| - 1])
  }

  lemma {:induction false} ReadAllConcat(p: Phase, a: seq<Event>, b: seq<Event>)
    ensures ReadAll(p, a + b) == ReadAll(ReadAll(p, a), b)
  {
    if b == [] {
      assert a + b == a;
    } else {
      var front := b[..|b| - 1];
      assert (a + b)[..|a + b| - 1] == a + front;
      ReadAllConcat(p, a, front);
    }
  }

  lemma ReadSnoc(p: Phase, events: seq<Event>, e: Event)
    ensures ReadAll(p, events + [e]) == Read(ReadAll(p, events), e)
  {
    assert (events + [e])[..|events|] == events;
  }

  lemma StartedSnoc(tools: map<string, string>, calls: seq<ToolUse>, call: ToolUse)
    ensures StartedEvents(tools, calls + [call]) == StartedEvents(tools, calls) + [StartedEvent(tools, call)]
  {
    assert (calls + [call])[..|calls|] == calls;
  }

  lemma {:induction false} ReadStarted(p: Phase, tools: map<string, string>, calls: seq<ToolUse>)
    requires p.BetweenSteps? || p.AfterText?
    requires calls != []
    ensures ReadAll(p, StartedEvents(tools, calls)) == Starting(CallIds(calls))
  {
    var front, last := calls[..|calls| - 1], calls[|calls| - 1];
    assert calls == front + [last];
    if front == [] {
      NothingStarted(tools);
    }
    hide ReadAll, StartedEvents, CallIds, Read;
    StartedSnoc(tools, front, last);
    CallIdsSnoc(front, last);
    ReadSnoc(p, StartedEvents(tools, front), StartedEvent(tools, last));
    if front == [] {
      ReadNothing(p);
      ReadOneStart(p, tools, last);
      assert [] + [last.callId] == [last.callId];
    } else {
      ReadStarted(p, tools, front);
      ReadOneStart(Starting(CallIds(front)), tools, last);
    }
  }

  lemma ReadOneStart(p: Phase, tools: map<string, string>, call: ToolUse)
    ensures p.BetweenSteps? || p.AfterText? ==> Read(p, StartedEvent(tools, call)) == Starting([call.callId])
    ensures p.Starting? ==> Read(p, StartedEvent(tools, call)) == Starting(p.ids + [call.callId])
  {
  }

  lemma NothingStarted(tools: map<string, string>)
    ensures StartedEvents(tools, []) == [] && CallIds([]) == []
  {
  }

  lemma CallIdsSnoc(calls: seq<ToolUse>, call: ToolUse)
    ensures CallIds(calls + [call]) == CallIds(calls) + [call.callId]
  {
  }

  lemma {:induction false} ReadCompleted(blocks: seq<Block>, ids: seq<string>, n: nat)
    requires |blocks| == |ids| && 0 < n <= |blocks|
    requires forall i :: 0 <= i < |blocks| ==> blocks[i].ToolResultBlock? && blocks[i].callId == ids[i]
    ensures ReadAll(Starting(ids), CompletedEvents(blocks[..n])) == Settle(ids[n..])
  {
    assert blocks[..n][..n - 1] == blocks[..n - 1];
    assert blocks[..n][n - 1] == blocks[n - 1];
    if n == 1 {
      assert blocks[..0] == [];
      assert ReadAll(Starting(ids), CompletedEvents(blocks[..0])) == Starting(ids);
    } else {
      ReadCompleted(blocks, ids, n - 1);
      assert ids[n - 1..][1..] == ids[n..];
    }
  }

  // A whole step brings the observer back between steps; a step cut short by an agent
  // error leaves it where only that error may follow.
  lemma ReadStep(w: World, spec: AgentSpec, request: RunRequest, st: RunState, k: int)
    ensures var r, p := Step(w, spec, request, st, k), ReadAll(BetweenSteps, StepEvents(w, spec, request, st, k));
      && (r.Next? ==> p == BetweenSteps)
      && (r.Finished? ==> p.BetweenSteps? || p.AfterText?)
      && (r.Aborted? ==> p.BetweenSteps? || p.AfterText? || p.Starting?)
  {
    var built := w.build(k, st.history, st.pending);
    if built.Ok? && w.complete(k, WireHistory(built.value)).Answered? {
      ReadAnswer(w, spec, request, AbsorbInput(st), k, w.complete(k, WireHistory(built.value)).response);
    }
  }

  lemma ReadNothing(p: Phase)
    ensures ReadAll(p, []) == p
  {
  }

  lemma ReadText(text: string)
    ensures var p := ReadAll(BetweenSteps, TextEvents(text)); p.BetweenSteps? || p.AfterText?
  {
    if text != "" {
      assert TextEvents(text)[..0] == [];
    }
  }

  lemma ReadAnswer(w: World, spec: AgentSpec, request: RunRequest, asked: RunState, k: int, response: Response)
    ensures var r := AfterAnswer(w, spec, request, asked, k, response);
      var p := ReadAll(BetweenSteps, AnswerEvents(w, spec, request, asked, k, response));
      && (r.Next? ==> p == BetweenSteps)
      && (r.Finished? ==> p.BetweenSteps? || p.AfterText?)
      && (r.Aborted? ==> p.BetweenSteps? || p.AfterText? || p.Starting?)
  {
    hide ReadAll, CallResults, TextEvents, StartedEvents, CompletedEvents, Requested, CallIds, UseBlocks;
    var text, requested := TextEvents(response.text), Requested(response.toolCalls);
    var p := ReadAll(BetweenSteps, text);
    ReadText(response.text);
    ReadNothing(BetweenSteps);
    if requested != [] {
      var started := StartedEvents(spec.tools, requested);
      ReadAllConcat(BetweenSteps, text, started);
      ReadStarted(p, spec.tools, requested);
      var blocks := CallResults(w, spec.tools, k, requested, |requested|);
      if blocks.Ok? {
        ResultsInOrder(w, spec.tools, k, requested, |requested|);
        ReadAllConcat(BetweenSteps, text + started, CompletedEvents(blocks.value));
        ReadCompleted(blocks.value, CallIds(requested), |requested|);
        assert blocks.value[..|requested|] == blocks.value;
      } else {
        assert text + started + [] == text + started;
      }
    }
  }

  lemma {:induction false} ReadRest(w: World, spec: AgentSpec, request: RunRequest, st: RunState, k: int)
    ensures var s := StreamFrom(w, spec, request, st, k);
      ReadAll(BetweenSteps, s.events) != Rejected && (s.escaped.None? ==> ReadAll(BetweenSteps, s.events) == Ended)
    decreases IterationCap(spec, request) - k
  {
    hide Step, StepEvents, ReadAll;
    if k >= IterationCap(spec, request) {
      ReadLast(RunFailed(MaxIterationsError(IterationCap(spec, request))));
    } else {
      ReadStep(w, spec, request, st, k + 1);
      var events := StepEvents(w, spec, request, st, k + 1);
      match Step(w, spec, request, st, k + 1) {
        case Next(next) =>
          ReadRest(w, spec, request, next, k + 1);
          ReadAllConcat(BetweenSteps, events, StreamFrom(w, spec, request, next, k + 1).events);
        case Finished(result, _) =>
          ReadSnoc(BetweenSteps, events, RunCompleted(result));
        case Aborted(failure, _) =>
          if failure.AgentFailure? {
            ReadSnoc(BetweenSteps, events, RunFailed(failure.error));
          }
      }
    }
  }

  lemma ReadLast(e: Event)
    requires IsTerminal(e)
    ensures ReadAll(BetweenSteps, [e]) == Ended
  {
    assert [e][..0] == [];
  }

  // Every stream is RunStarted, then whole steps (at most one text, n starts, the same
  // n ids completed in order), then at most one step cut short, then one terminal
  // event; without a foreign exception the terminal event is always there.
  lemma StreamFollowsGrammar(w: World, spec: AgentSpec, request: RunRequest, initial: Option<seq<Message>>)
    ensures var s := Stream(w, spec, request, initial);
      ReadAll(Begin, s.events) != Rejected && (s.escaped.None? ==> ReadAll(Begin, s.events) == Ended)
  {
    var st := InitialState(spec, request, initial);
    ReadRest(w, spec, request, st, 0);
    ReadAllConcat(Begin, [RunStarted], StreamFrom(w, spec, request, st, 0).events);
  }

  // ---------- the stream tells the whole story ----------

  // What an observer collects: the calls started, the results completed, the text.
  datatype Story = Story(started: seq<ToolUse>, completed: seq<Block>, text: string)

  function Join(a: Story, b: Story): Story {
    Story(a.started + b.started, a.completed + b.completed, a.text + b.text)
  }

  function Tell(e: Event): Story {
    match e
    case ToolCallStarted(callId, _, toolName, args) => Story([ToolUse(callId, toolName, args)], [], "")
    case ToolCallCompleted(callId, output, isError) => Story([], [ToolResultBlock(callId, output, isError)], "")
    case TextDelta(text) => Story([], [], text)
    case _ => Story([], [], "")
  }

  function StoryOf(events: seq<Event>): Story {
    if events == [] then Story([], [], "")
    else Join(StoryOf(events[..|events| - 1]), Tell(events[|events| - 1]))
  }

  // The text of the assistant messages of a conversation, in order.
  function AssistantTexts(h: seq<Message>): string {
    if h == [] then ""
    else AssistantTexts(h[..|h| - 1]) + (if h[|h| - 1].AssistantMessage? then TextOf(h[|h| - 1].content) else "")
  }

  lemma JoinAssociative(a: Story, b: Story, c: Story)
    ensures Join(Join(a, b), c) == Join(a, Join(b, c))
  {
    assert a.text + b.text + c.text == a.text + (b.text + c.text);
  }

  lemma StorySnoc(events: seq<Event>, e: Event)
    ensures StoryOf(events + [e]) == Join(StoryOf(events), Tell(e))
  {
    assert (events + [e])[..|events|] == events;
  }

  lemma {:induction false} StoryConcat(a: seq<Event>, b: seq<Event>)
    ensures StoryOf(a + b) == Join(StoryOf(a), StoryOf(b))
  {
    if b == [] {
      assert a + b == a;
      assert Join(StoryOf(a), StoryOf(b)) == StoryOf(a);
    } else {
      var front, last := b[..|b| - 1], b[|b| - 1];
      assert a + b == (a + front) + [last];
      StorySnoc(a + front, last);
      StoryConcat(a, front);
      JoinAssociative(StoryOf(a), StoryOf(front), Tell(last));
    }
  }

  lemma {:induction false} StartedStory(tools: map<string, string>, calls: seq<ToolUse>)
    ensures StoryOf(StartedEvents(tools, calls)) == Story(calls, [], "")
  {
    if calls == [] {
      StoryOfNothing();
    } else {
      hide StoryOf, StartedEvents, StartedEvent;
      var front, last := calls[..|calls| - 1], calls[|calls| - 1];
      assert calls == front + [last];
      StartedSnoc(tools, front, last);
      StartedStory(tools, front);
      StorySnoc(StartedEvents(tools, front), StartedEvent(tools, last));
      OneStartTold(tools, last);
    }
  }

  lemma OneStartTold(tools: map<string, string>, call: ToolUse)
    ensures Tell(StartedEvent(tools, call)) == Story([call], [], "")
  {
  }

  lemma {:induction false} CompletedStory(blocks: seq<Block>)
    requires forall b :: b in blocks ==> b.ToolResultBlock?
    ensures StoryOf(CompletedEvents(blocks)) == Story([], blocks, "")
  {
    if blocks != [] {
      var front, last := blocks[..|blocks| - 1], blocks[|blocks| - 1];
      CompletedStory(front);
      StorySnoc(CompletedEvents(front), ToolCallCompleted(last.callId, last.output, last.isError));
      assert blocks == front + [last] && last == ToolResultBlock(last.callId, last.output, last.isError);
    }
  }

  // The contents of the tool messages of a conversation, in order.
  function ResultBlocks(h: seq<Message>): seq<Block> {
    if h == [] then []
    else ResultBlocks(h[..|h| - 1]) + (if h[|h| - 1].ToolMessage? then h[|h| - 1].content else [])
  }

  lemma ResultBlocksSnoc(h: seq<Message>, m: Message)
    ensures ResultBlocks(h + [m]) == ResultBlocks(h) + (if m.ToolMessage? then m.content else [])
  {
    assert (h + [m])[..|h|] == h;
  }

  lemma {:induction false} TextOfConcat(a: seq<Block>, b: seq<Block>)
    ensures TextOf(a + b) == TextOf(a) + TextOf(b)
  {
    if b == [] {
      assert a + b == a;
    } else {
      assert (a + b)[..|a + b| - 1] == a + b[..|b| - 1];
      TextOfConcat(a, b[..|b| - 1]);
    }
  }

  lemma {:induction false} UseBlocksSayNothing(uses: seq<ToolUse>)
    ensures TextOf(UseBlocks(uses)) == ""
  {
    if uses != [] {
      UseBlocksSayNothing(uses[..|uses| - 1]);
      assert UseBlocks(uses)[..|UseBlocks(uses)| - 1] == UseBlocks(uses[..|uses| - 1]);
    }
  }

  lemma AssistantSaysItsText(response: Response)
    ensures TextOf(AssistantFrom(response).content) == response.text
  {
    TextOfConcat(TextBlocks(response.text), UseBlocks(Requested(response.toolCalls)));
    UseBlocksSayNothing(Requested(response.toolCalls));
    if response.text != "" {
      assert TextBlocks(response.text)[..0] == [];
    }
  }

  lemma AssistantTextsSnoc(h: seq<Message>, m: Message)
    ensures AssistantTexts(h + [m]) == AssistantTexts(h) + (if m.AssistantMessage? then TextOf(m.content) else "")
  {
    assert (h + [m])[..|h|] == h;
  }

  // `told` is what happened between the two states, and every call it started was completed.
  ghost predicate Accounts(told: Story, before: RunState, after: RunState) {
    && after.calls == before.calls + told.started
    && ResultIds(told.completed) == CallIds(told.started)
    && ResultBlocks(after.history) == ResultBlocks(before.history) + told.completed
    && AssistantTexts(after.history) == AssistantTexts(before.history) + told.text
  }

  lemma AccountsJoin(a: Story, b: Story, s0: RunState, s1: RunState, s2: RunState)
    requires Accounts(a, s0, s1) && Accounts(b, s1, s2)
    ensures Accounts(Join(a, b), s0, s2)
  {
    hide AssistantTexts, ResultBlocks, ResultIds, CallIds;
    CallIdsConcat(a.started, b.started);
    ResultIdsConcat(a.completed, b.completed);
    Associative(ResultBlocks(s0.history), a.completed, b.completed);
    Associative(s0.calls, a.started, b.started);
    Associative(AssistantTexts(s0.history), a.text, b.text);
  }

  lemma Associative<T>(a: seq<T>, b: seq<T>, c: seq<T>)
    ensures a + b + c == a + (b + c)
  {
  }

  lemma {:induction false} ResultIdsConcat(a: seq<Block>, b: seq<Block>)
    ensures ResultIds(a + b) == ResultIds(a) + ResultIds(b)
  {
    if a == [] {
      assert a + b == b;
    } else {
      assert (a + b)[0] == a[0] && (a + b)[1..] == a[1..] + b;
      ResultIdsConcat(a[1..], b);
    }
  }

  lemma CallIdsConcat(a: seq<ToolUse>, b: seq<ToolUse>)
    ensures CallIds(a + b) == CallIds(a) + CallIds(b)
  {
  }

  // The user's turn is not the assistant's.
  ghost predicate PendingIsUsers(st: RunState) {
    st.pending.Some? ==> ToolFree(st.pending.value) && !st.pending.value.AssistantMessage?
  }

  lemma StepStory(w: World, spec: AgentSpec, request: RunRequest, st: RunState, k: int)
    requires PendingIsUsers(st)
    ensures var r := Step(w, spec, request, st, k);
      !r.Aborted? ==>
        && Accounts(StoryOf(StepEvents(w, spec, request, st, k)), st, r.state)
        && (r.Finished? ==> r.result.toolCalls == r.state.calls && r.result.messages == r.state.history)
        && PendingIsUsers(r.state)
  {
    hide StoryOf, AfterAnswer, AnswerEvents;
    if st.pending.Some? {
      AssistantTextsSnoc(st.history, st.pending.value);
      ResultBlocksSnoc(st.history, st.pending.value);
    }
    var asked := AbsorbInput(st);
    assert AssistantTexts(asked.history) == AssistantTexts(st.history);
    assert ResultBlocks(asked.history) == ResultBlocks(st.history);
    var built := w.build(k, st.history, st.pending);
    if built.Ok? && w.complete(k, WireHistory(built.value)).Answered? {
      AnswerStory(w, spec, request, asked, k, w.complete(k, WireHistory(built.value)).response);
    }
  }

  lemma TextStory(text: string)
    ensures StoryOf(TextEvents(text)) == Story([], [], text)
  {
    if text != "" {
      assert TextEvents(text)[..0] == [];
    }
  }

  lemma AnswerStory(w: World, spec: AgentSpec, request: RunRequest, asked: RunState, k: int, response: Response)
    requires asked.pending.None?
    ensures var r := AfterAnswer(w, spec, request, asked, k, response);
      var events := AnswerEvents(w, spec, request, asked, k, response);
      !r.Aborted? ==>
        && Accounts(StoryOf(events), asked, r.state)
        && (r.Finished? ==> r.result.toolCalls == r.state.calls && r.result.messages == r.state.history)
        && r.state.pending.None?
  {
    hide StoryOf, Accounts, AssistantFrom, CallResults, CheckBudget, EstimateCost, MergeReported;
    hide TextEvents, StartedEvents, CompletedEvents, ResultIds, CallIds;
    var requested := Requested(response.toolCalls);
    var r := AfterAnswer(w, spec, request, asked, k, response);
    TextStory(response.text);
    if requested != [] {
      var blocks := CallResults(w, spec.tools, k, requested, |requested|);
      if blocks.Ok? {
        CallResultsExact(w, spec.tools, k, requested);
        ToolsStory(spec.tools, requested, response.text, blocks.value);
        if r.Next? {
          ExchangeAccounts(asked, r.state, response, requested, blocks.value);
        }
      }
    } else if r.Finished? {
      assert asked.calls + requested == asked.calls;
      TextAccounts(asked, r.state, response);
    }
  }

  lemma ExchangeAccounts(
      asked: RunState, after: RunState, response: Response, requested: seq<ToolUse>, blocks: seq<Block>)
    requires after.history == asked.history + [AssistantFrom(response)] + [ToolMessage(blocks)]
    requires after.calls == asked.calls + requested && ResultIds(blocks) == CallIds(requested)
    ensures Accounts(Story(requested, blocks, response.text), asked, after)
  {
    hide AssistantTexts, ResultBlocks, ResultIds, CallIds, AssistantFrom;
    var answered := asked.history + [AssistantFrom(response)];
    AnsweredTexts(asked.history, response);
    AnsweredBlocks(asked.history, response);
    AssistantTextsSnoc(answered, ToolMessage(blocks));
    ResultBlocksSnoc(answered, ToolMessage(blocks));
    assert AssistantTexts(asked.history) + response.text + "" == AssistantTexts(asked.history) + response.text;
  }

  lemma TextAccounts(asked: RunState, after: RunState, response: Response)
    requires after.history == asked.history + [AssistantFrom(response)] && after.calls == asked.calls
    ensures Accounts(Story([], [], response.text), asked, after)
  {
    hide AssistantTexts, ResultBlocks, AssistantFrom;
    AnsweredTexts(asked.history, response);
    AnsweredBlocks(asked.history, response);
    NoIds();
    assert ResultBlocks(asked.history) + [] == ResultBlocks(asked.history);
    assert asked.calls + [] == asked.calls;
  }

  lemma AnsweredBlocks(h: seq<Message>, response: Response)
    ensures ResultBlocks(h + [AssistantFrom(response)]) == ResultBlocks(h)
  {
    ResultBlocksSnoc(h, AssistantFrom(response));
  }

  lemma NoIds()
    ensures ResultIds([]) == CallIds([])
  {
  }

  lemma AnsweredTexts(h: seq<Message>, response: Response)
    ensures AssistantTexts(h + [AssistantFrom(response)]) == AssistantTexts(h) + response.text
  {
    AssistantTextsSnoc(h, AssistantFrom(response));
    AssistantSaysItsText(response);
  }

  lemma ToolsStory(tools: map<string, string>, requested: seq<ToolUse>, text: string, blocks: seq<Block>)
    requires forall b :: b in blocks ==> b.ToolResultBlock?
    requires ResultIds(blocks) == CallIds(requested)
    ensures StoryOf(TextEvents(text) + StartedEvents(tools, requested) + CompletedEvents(blocks))
         == Story(requested, blocks, text)
  {
    hide StoryOf, StartedEvents, CompletedEvents, TextEvents, ResultIds, CallIds;
    TextStory(text);
    StartedStory(tools, requested);
    CompletedStory(blocks);
    var a, b, c := TextEvents(text), StartedEvents(tools, requested), CompletedEvents(blocks);
    StoryConcat(a, b);
    StoryConcat(a + b, c);
    assert Join(Story([], [], text), Story(requested, [], "")) == Story(requested, [], text);
    assert Join(Story(requested, [], text), Story([], blocks, "")) == Story(requested, blocks, text);
  }

  lemma {:induction false} StreamStory(w: World, spec: AgentSpec, request: RunRequest, st: RunState, k: int)
    requires PendingIsUsers(st)
    ensures var s, out := StreamFrom(w, spec, request, st, k), RunFrom(w, spec, request, st, k);
      out.Completed? ==>
        Accounts(StoryOf(s.events), st, RunState(out.result.messages, None, out.result.tokens, out.result.toolCalls))
    decreases IterationCap(spec, request) - k
  {
    hide Step, StepEvents, StoryOf, PendingIsUsers;
    if k < IterationCap(spec, request) {
      StepStory(w, spec, request, st, k + 1);
      var events, r := StepEvents(w, spec, request, st, k + 1), Step(w, spec, request, st, k + 1);
      if r.Next? {
        var rest := StreamFrom(w, spec, request, r.state, k + 1).events;
        StreamStory(w, spec, request, r.state, k + 1);
        StoryConcat(events, rest);
        var out := RunFrom(w, spec, request, r.state, k + 1);
        if out.Completed? {
          AccountsJoin(StoryOf(events), StoryOf(rest), st, r.state,
            RunState(out.result.messages, None, out.result.tokens, out.result.toolCalls));
        }
      } else if r.Finished? {
        StorySnoc(events, RunCompleted(r.result));
        assert Join(StoryOf(events), Tell(RunCompleted(r.result))) == StoryOf(events);
      }
    }
  }

  // For a completed run the calls started, the calls completed and the result's
  // `tool_calls` are the same sequence, the completions carry exactly the results in the
  // tool messages of this run, and the streamed text is what its assistant messages say.
  lemma CompletedStreamTellsAll(w: World, spec: AgentSpec, request: RunRequest, initial: Option<seq<Message>>)
    ensures var s, out := Stream(w, spec, request, initial), Run(w, spec, request, initial);
      out.Completed? ==>
        && StoryOf(s.events).started == out.result.toolCalls
        && ResultIds(StoryOf(s.events).completed) == CallIds(out.result.toolCalls)
        && ResultBlocks(out.result.messages)
             == ResultBlocks(InitialHistory(spec, initial)) + StoryOf(s.events).completed
        && AssistantTexts(out.result.messages)
             == AssistantTexts(InitialHistory(spec, initial)) + StoryOf(s.events).text
  {
    hide StoryOf, StreamFrom, RunFrom;
    var st := InitialState(spec, request, initial);
    StreamStory(w, spec, request, st, 0);
    var rest := StreamFrom(w, spec, request, st, 0).events;
    StoryConcat([RunStarted], rest);
    StorySnoc([], RunStarted);
    StoryOfNothing();
    assert [] + [RunStarted] == [RunStarted];
    assert Join(Story([], [], ""), StoryOf(rest)) == StoryOf(rest);
  }

  lemma StoryOfNothing()
    ensures StoryOf([]) == Story([], [], "")
  {
  }
}
