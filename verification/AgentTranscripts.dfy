/** What a run's history, its events and its end say about the world: every answer shown
    to the model is what the tool answered, every exit has its cause, and a completed
    conversation can be read back as the exchanges that made it. */
module AgentTranscripts {
  import opened Wrappers
  import opened JsonValue
  import opened Usage
  import opened Messages
  import opened ToolCalls
  import opened Translation
  import opened AgentLoop
  import opened AgentRuns
  import opened AgentStream
  import opened WireMeaning

  // ---------- what the world says ----------

  function Asking(call: ToolCall): ToolUse {
    ToolUse(call.callId, call.toolName, call.arguments)
  }

  // The output and the error flag that call `i` of iteration `k` deserves: what its tool
  // returned, or the error it raised for the model to read, or that no tool has its name.
  ghost predicate Deserves(
      w: World, tools: map<string, string>, k: int, i: nat, call: ToolUse, output: Json, isError: bool)
  {
    if call.toolName in tools then
      || (w.invoke(k, i, call) == Returned(output) && !isError)
      || (w.invoke(k, i, call) == ToolFailed(output) && isError)
    else
      isError && output == Object(map["error" := String("tool_not_found"), "tool_name" := String(call.toolName)])
  }

  ghost predicate Crashes(w: World, tools: map<string, string>, k: int, i: nat, call: ToolUse) {
    call.toolName in tools && w.invoke(k, i, call) == Crashed
  }

  // A result block that tells the truth about a call.
  ghost predicate TrueResult(w: World, tools: map<string, string>, k: int, i: nat, call: ToolUse, b: Block) {
    b.ToolResultBlock? && b.callId == call.callId && Deserves(w, tools, k, i, call, b.output, b.isError)
  }

  // A tool message that answers these calls, each truthfully and in its place.
  ghost predicate TrueAnswer(w: World, tools: map<string, string>, k: int, calls: seq<ToolUse>, m: Message) {
    && m.ToolMessage? && |m.content| == |calls|
    && forall i :: 0 <= i < |calls| ==> TrueResult(w, tools, k, i, calls[i], m.content[i])
  }

  // An assistant message that says what the provider said, and asks for what it asked.
  ghost predicate Says(m: Message, r: Response) {
    var n := if r.text == "" then 0 else 1;
    && m.AssistantMessage? && |m.content| == n + |r.toolCalls|
    && (n == 1 ==> m.content[0] == TextBlock(r.text, false))
    && forall i :: 0 <= i < |r.toolCalls| ==> m.content[n..][i] == ToolUseBlock(Asking(r.toolCalls[i]))
  }

  // The provider was shown the wire form of what the builder made of this conversation,
  // and answered.
  ghost predicate Heard(w: World, k: int, history: seq<Message>, pending: Option<Message>, r: Response) {
    && w.build(k, history, pending).Ok?
    && w.complete(k, WireHistory(w.build(k, history, pending).value)) == Answered(r)
  }

  // A truthful tool message on the wire: one TOOL message for each call, with the output
  // the call deserves. The wire carries no error flag.
  lemma TrueAnswerOnWire(w: World, tools: map<string, string>, k: int, calls: seq<ToolUse>, m: Message)
    requires TrueAnswer(w, tools, k, calls, m)
    ensures |WireForm(m)| == |calls|
    ensures forall i :: 0 <= i < |calls| ==>
              ResultOnWire(ToolResultBlock(calls[i].callId, WireForm(m)[i].toolOutput, true), WireForm(m)[i])
              && exists isError :: Deserves(w, tools, k, i, calls[i], WireForm(m)[i].toolOutput, isError)
  {
    hide Deserves;
    forall i | 0 <= i < |m.content| ensures m.content[i].ToolResultBlock? {
      assert TrueResult(w, tools, k, i, calls[i], m.content[i]);
    }
    ResultsOnTheWire(m.content);
    forall i | 0 <= i < |calls|
      ensures ResultOnWire(ToolResultBlock(calls[i].callId, WireForm(m)[i].toolOutput, true), WireForm(m)[i])
      ensures exists isError :: Deserves(w, tools, k, i, calls[i], WireForm(m)[i].toolOutput, isError)
    {
      assert TrueResult(w, tools, k, i, calls[i], m.content[i]);
      assert ResultOnWire(m.content[i], WireForm(m)[i]);
    }
  }

  // ---------- one iteration ----------

  // Tokens and cost, counter by counter.
  function Tokens(u: TokenUsage): int {
    (if u.input.Some? then u.input.value else 0) + (if u.output.Some? then u.output.value else 0)
  }

  ghost predicate Costs(pricing: Option<Pricing>, u: TokenUsage, cost: real) {
    && pricing.Some?
    && cost * 1000000.0
       == Priced(u.input, pricing.value.input) + Priced(u.output, pricing.value.output)
          + Priced(u.cacheRead, pricing.value.cacheRead) + Priced(u.cacheCreation, pricing.value.cacheWrite)
  }

  function Priced(count: Option<int>, rate: real): real {
    if count.Some? then count.value as real * rate else 0.0
  }

  ghost predicate OverTokens(request: RunRequest, u: TokenUsage) {
    request.maxTokens.Some? && Tokens(u) > request.maxTokens.value
  }

  ghost predicate OverCost(spec: AgentSpec, request: RunRequest, u: TokenUsage) {
    exists cost: real :: CostsMore(spec, request, u, cost)
  }

  ghost predicate CostsMore(spec: AgentSpec, request: RunRequest, u: TokenUsage, cost: real) {
    request.maxCostUsd.Some? && Costs(spec.pricing, u, cost) && cost > request.maxCostUsd.value
  }

  ghost predicate Affordable(spec: AgentSpec, request: RunRequest, u: TokenUsage) {
    !OverTokens(request, u) && !OverCost(spec, request, u)
  }

  // The usage after an answer: counters absent on both sides stay absent.
  ghost predicate Adds(before: TokenUsage, report: Option<TokenUsage>, after: TokenUsage) {
    if report.None? then after == before
    else forall c: Counter ::
      && (Count(after, c).None? <==> Count(before, c).None? && Count(report.value, c).None?)
      && OrZero(Count(after, c)) == OrZero(Count(before, c)) + OrZero(Count(report.value, c))
  }

  function Shown(st: RunState): seq<Message> {
    if st.pending.Some? then st.history + [st.pending.value] else st.history
  }

  // The run goes on: the provider asked for calls within the budget, none crashed, and
  // the conversation grew by its message and the truth about every call.
  ghost predicate GoesOn(
      w: World, spec: AgentSpec, request: RunRequest, st: RunState, k: int, r: Response, next: RunState)
  {
    && Heard(w, k, st.history, st.pending, r) && r.toolCalls != []
    && Adds(st.usage, r.usage, next.usage) && Affordable(spec, request, next.usage)
    && next.pending == None
    && |next.history| == |Shown(st)| + 2 && next.history[..|Shown(st)|] == Shown(st)
    && Says(next.history[|Shown(st)|], r)
    && next.calls == st.calls + ToolUses(next.history[|Shown(st)|].content)
    && TrueAnswer(w, spec.tools, k, ToolUses(next.history[|Shown(st)|].content), next.history[|Shown(st)| + 1])
  }

  // The run returns: the provider asked for nothing, and its text was parsed.
  ghost predicate Returns(
      w: World, spec: AgentSpec, request: RunRequest, st: RunState, k: int, r: Response, result: RunResult)
  {
    && Heard(w, k, st.history, st.pending, r) && r.toolCalls == []
    && Adds(st.usage, r.usage, result.tokens) && Affordable(spec, request, result.tokens)
    && w.coerce(r.text) == Some(result.output)
    && result.iterations == k && result.toolCalls == st.calls
    && |result.messages| == |Shown(st)| + 1 && result.messages[..|Shown(st)|] == Shown(st)
    && Says(result.messages[|Shown(st)|], r)
    && (if spec.pricing.None? then result.costUsd == None
        else result.costUsd.Some? && Costs(spec.pricing, result.tokens, result.costUsd.value))
  }

  // Each failure has its cause; `after` is the usage with this answer counted.
  ghost predicate Because(
      w: World, spec: AgentSpec, request: RunRequest, st: RunState, k: int, failure: Failure, after: TokenUsage)
  {
    var built := w.build(k, st.history, st.pending);
    var answer := if built.Ok? then w.complete(k, WireHistory(built.value)) else RaisedOther;
    var heard := built.Ok? && answer.Answered? && Adds(st.usage, answer.response.usage, after);
    match failure
    case Foreign(tag) => built == Err(RaisedForeign(tag)) || (built.Ok? && answer == RaisedToolError(tag))
    case AgentFailure(BuilderError(tag)) => built == Err(RaisedAgentError(tag))
    case AgentFailure(ProviderError) => built.Ok? && answer == RaisedOther
    case AgentFailure(TokenBudgetError(threshold, observed)) =>
      heard && request.maxTokens == Some(threshold) && observed == Tokens(after) > threshold
    case AgentFailure(CostBudgetError(threshold, observed)) =>
      && heard && !OverTokens(request, after)
      && request.maxCostUsd == Some(threshold) && Costs(spec.pricing, after, observed) && observed > threshold
    case AgentFailure(ToolCrashError(name)) =>
      && heard && Affordable(spec, request, after)
      && SomeCrash(w, spec.tools, k, answer.response.toolCalls, name)
    case AgentFailure(OutputValidationError(raw)) =>
      && heard && Affordable(spec, request, after)
      && answer.response.toolCalls == [] && raw == answer.response.text && w.coerce(raw) == None
    case AgentFailure(MaxIterationsError(_)) => false
  }

  // The first of the calls to crash has this name.
  ghost predicate SomeCrash(w: World, tools: map<string, string>, k: int, calls: seq<ToolCall>, name: string) {
    exists i :: FirstToCrash(w, tools, k, calls, i, name)
  }

  ghost predicate FirstToCrash(
      w: World, tools: map<string, string>, k: int, calls: seq<ToolCall>, i: int, name: string)
  {
    && 0 <= i < |calls| && calls[i].toolName == name && Crashes(w, tools, k, i, Asking(calls[i]))
    && forall j :: 0 <= j < i ==> !Crashes(w, tools, k, j, Asking(calls[j]))
  }

  lemma MergeAdds(before: TokenUsage, report: Option<TokenUsage>)
    ensures Adds(before, report, MergeReported(before, report))
  {
  }

  lemma AssistantSays(r: Response)
    ensures Says(AssistantFrom(r), r)
    ensures ToolUses(AssistantFrom(r).content) == Requested(r.toolCalls)
  {
    AssistantAsksForItsCalls(r);
    var n := if r.text == "" then 0 else 1;
    UseBlocksInPlace(Requested(r.toolCalls));
    var content := AssistantFrom(r).content;
    assert content[n..] == UseBlocks(Requested(r.toolCalls));
  }

  lemma {:induction false} UseBlocksInPlace(uses: seq<ToolUse>)
    ensures |UseBlocks(uses)| == |uses|
    ensures forall i :: 0 <= i < |uses| ==> UseBlocks(uses)[i] == ToolUseBlock(uses[i])
  {
    if uses != [] {
      UseBlocksInPlace(uses[..|uses| - 1]);
    }
  }

  lemma OutcomeIsDeserved(w: World, tools: map<string, string>, k: int, i: nat, call: ToolUse)
    ensures var outcome := InvokeTool(w, tools, k, i, call);
            && (outcome.Crashed? <==> Crashes(w, tools, k, i, call))
            && (!outcome.Crashed? ==> TrueResult(w, tools, k, i, call, ResultBlock(call, outcome)))
  {
  }

  // The results of an iteration are true, one for each call.
  lemma ResultsAreTrue(w: World, tools: map<string, string>, k: int, calls: seq<ToolUse>)
    ensures var blocks := CallResults(w, tools, k, calls, |calls|);
            && (blocks.Ok? ==> TrueAnswer(w, tools, k, calls, ToolMessage(blocks.value)))
            && (blocks.Ok? <==> forall i :: 0 <= i < |calls| ==> !Crashes(w, tools, k, i, calls[i]))
  {
    hide InvokeTool, ResultBlock, CallResults, Crashes, TrueResult;
    CallResultsExact(w, tools, k, calls);
    forall i | 0 <= i < |calls|
      ensures var outcome := InvokeTool(w, tools, k, i, calls[i]);
              && (outcome.Crashed? <==> Crashes(w, tools, k, i, calls[i]))
              && (!outcome.Crashed? ==> TrueResult(w, tools, k, i, calls[i], ResultBlock(calls[i], outcome)))
    {
      OutcomeIsDeserved(w, tools, k, i, calls[i]);
    }
  }

  lemma CrashIsTheFirst(w: World, tools: map<string, string>, k: int, r: Response)
    requires CallResults(w, tools, k, Requested(r.toolCalls), |r.toolCalls|).Err?
    ensures var error := CallResults(w, tools, k, Requested(r.toolCalls), |r.toolCalls|).error;
            error.ToolCrashError? && SomeCrash(w, tools, k, r.toolCalls, error.toolName)
  {
    hide CallResults;
    var calls := Requested(r.toolCalls);
    var i := FirstCrash(w, tools, k, calls, |calls|);
    forall j | 0 <= j <= i
      ensures InvokeTool(w, tools, k, j, calls[j]).Crashed? <==> Crashes(w, tools, k, j, calls[j])
    {
      OutcomeIsDeserved(w, tools, k, j, calls[j]);
    }
    assert FirstToCrash(w, tools, k, r.toolCalls, i, calls[i].toolName);
  }

  // The rates, each for its own counter.
  lemma CostIsExact(spec: AgentSpec, u: TokenUsage)
    ensures EstimateCost(spec.pricing, u).Some? <==> spec.pricing.Some?
    ensures forall cost: real ::
              Costs(spec.pricing, u, cost) <==> EstimateCost(spec.pricing, u) == Some(cost)
  {
    if spec.pricing.Some? {
      var p, cost := spec.pricing.value, EstimateCost(spec.pricing, u).value;
      NothingPriced(p.input);
      NothingPriced(p.output);
      NothingPriced(p.cacheRead);
      NothingPriced(p.cacheWrite);
      assert Costs(spec.pricing, u, cost);
    }
  }

  lemma NothingPriced(rate: real)
    ensures 0 as real * rate == 0.0
  {
  }

  lemma BudgetIsExact(spec: AgentSpec, request: RunRequest, u: TokenUsage)
    ensures var over := CheckBudget(request, u, EstimateCost(spec.pricing, u));
            && (over.None? <==> Affordable(spec, request, u))
            && (over.Some? && over.value.TokenBudgetError? ==>
                  request.maxTokens == Some(over.value.threshold) && over.value.observed == Tokens(u)
                  && OverTokens(request, u))
            && (over.Some? && over.value.CostBudgetError? ==>
                  !OverTokens(request, u) && request.maxCostUsd == Some(over.value.costThreshold)
                  && Costs(spec.pricing, u, over.value.costObserved)
                  && over.value.costObserved > over.value.costThreshold)
            && (over.Some? ==> over.value.TokenBudgetError? || over.value.CostBudgetError?)
  {
    hide EstimateCost, Costs;
    CostIsExact(spec, u);
    if EstimateCost(spec.pricing, u).Some? {
      var cost := EstimateCost(spec.pricing, u).value;
      assert Costs(spec.pricing, u, cost);
      assert CostsMore(spec, request, u, cost) ==> OverCost(spec, request, u);
    }
  }

  // Every iteration either goes on with the truth, returns what the provider's last text
  // parses to, or fails for its cause.
  lemma IterationIsExplained(w: World, spec: AgentSpec, request: RunRequest, st: RunState, k: int)
    ensures var r := Step(w, spec, request, st, k);
            && (r.Next? ==> exists said :: GoesOn(w, spec, request, st, k, said, r.state))
            && (r.Finished? ==> exists said :: Returns(w, spec, request, st, k, said, r.result))
            && (r.Aborted? ==> exists after :: Because(w, spec, request, st, k, r.failure, after))
  {
    hide AfterAnswer, WireHistory, GoesOn, Returns;
    var built, r := w.build(k, st.history, st.pending), Step(w, spec, request, st, k);
    if built.Ok? && w.complete(k, WireHistory(built.value)).Answered? {
      var said := w.complete(k, WireHistory(built.value)).response;
      AnswerIsExplained(w, spec, request, st, k, said);
    } else {
      assert Because(w, spec, request, st, k, r.failure, st.usage);
    }
  }

  lemma AnswerIsExplained(
      w: World, spec: AgentSpec, request: RunRequest, st: RunState, k: int, said: Response)
    requires Heard(w, k, st.history, st.pending, said)
    ensures var r := AfterAnswer(w, spec, request, AbsorbInput(st), k, said);
            && (r.Next? ==> GoesOn(w, spec, request, st, k, said, r.state))
            && (r.Finished? ==> Returns(w, spec, request, st, k, said, r.result))
            && (r.Aborted? ==> Because(w, spec, request, st, k, r.failure, MergeReported(st.usage, said.usage)))
  {
    hide WireHistory, MergeReported, EstimateCost, CheckBudget, AssistantFrom, CallResults, Says, TrueAnswer, Adds,
      Affordable, Costs, ToolUses;
    var after := MergeReported(st.usage, said.usage);
    MergeAdds(st.usage, said.usage);
    CostIsExact(spec, after);
    BudgetIsExact(spec, request, after);
    AssistantSays(said);
    var calls := Requested(said.toolCalls);
    var r := AfterAnswer(w, spec, request, AbsorbInput(st), k, said);
    assert AbsorbInput(st).history == Shown(st);
    if Affordable(spec, request, after) {
      if calls != [] {
        ResultsAreTrue(w, spec.tools, k, calls);
        var blocks := CallResults(w, spec.tools, k, calls, |calls|);
        if blocks.Err? {
          CrashIsTheFirst(w, spec.tools, k, said);
        } else {
          assert r.state.history == Shown(st) + [AssistantFrom(said)] + [ToolMessage(blocks.value)];
        }
      } else {
        assert st.calls + calls == st.calls;
      }
    }
  }

  // ---------- whole runs ----------

  function Grown(history: seq<Message>, pending: Option<Message>): seq<Message> {
    if pending.Some? then history + [pending.value] else history
  }

  // A conversation from iteration `k + 1` on, read back from its messages: each assistant
  // message says what the provider answered to the conversation so far, each tool message
  // answers it truthfully, and the last text, if the run returned, was parsed to `output`.
  ghost predicate ReadsBack(
      w: World, tools: map<string, string>, history: seq<Message>, pending: Option<Message>, k: int,
      tail: seq<Message>, output: Option<Json>)
    decreases |tail|
  {
    if tail == [] then output.None?
    else exists said :: ReadsBackFrom(w, tools, history, pending, k, tail, output, said)
  }

  ghost predicate ReadsBackFrom(
      w: World, tools: map<string, string>, history: seq<Message>, pending: Option<Message>, k: int,
      tail: seq<Message>, output: Option<Json>, said: Response)
    requires tail != []
    decreases |tail|, 0
  {
    && Heard(w, k + 1, history, pending, said) && Says(tail[0], said)
    && if said.toolCalls == [] then |tail| == 1 && output.Some? && w.coerce(said.text) == output
       else
         && |tail| >= 2 && TrueAnswer(w, tools, k + 1, ToolUses(tail[0].content), tail[1])
         && ReadsBack(w, tools, Grown(history, pending) + tail[..2], None, k + 1, tail[2..], output)
  }

  lemma OneMoreExchange(
      w: World, tools: map<string, string>, history: seq<Message>, pending: Option<Message>, k: int,
      said: Response, asks: Message, answers: Message, rest: seq<Message>, output: Option<Json>)
    requires Heard(w, k + 1, history, pending, said) && said.toolCalls != [] && Says(asks, said)
    requires TrueAnswer(w, tools, k + 1, ToolUses(asks.content), answers)
    requires ReadsBack(w, tools, Grown(history, pending) + [asks, answers], None, k + 1, rest, output)
    ensures ReadsBack(w, tools, history, pending, k, [asks, answers] + rest, output)
  {
    hide Heard, Says, TrueAnswer;
    var tail := [asks, answers] + rest;
    assert tail[..2] == [asks, answers] && tail[2..] == rest;
    assert ReadsBackFrom(w, tools, history, pending, k, tail, output, said);
  }

  // A completed run's conversation reads back to the result's output; a run out of
  // iterations leaves one that reads back too, of as many exchanges as the limit allowed.
  lemma {:induction false} RunReadsBack(
      w: World, spec: AgentSpec, request: RunRequest, st: RunState, k: int) returns (tail: seq<Message>)
    ensures var out := RunFrom(w, spec, request, st, k);
            && (out.Completed? ==>
                  && out.result.messages == Shown(st) + tail && |tail| == 2 * (out.result.iterations - k) - 1
                  && ReadsBack(w, spec.tools, st.history, st.pending, k, tail, Some(out.result.output)))
            && (out.Raised? && out.failure.AgentFailure? && out.failure.error.MaxIterationsError? ==>
                  && out.last.history == (if tail == [] then st.history else Shown(st) + tail)
                  && out.failure.error.limit == IterationCap(spec, request)
                  && |tail| == (if out.failure.error.limit > k then 2 * (out.failure.error.limit - k) else 0)
                  && ReadsBack(w, spec.tools, st.history, st.pending, k, tail, None))
    decreases IterationCap(spec, request) - k
  {
    hide Step, Heard, Says, TrueAnswer, Adds, Affordable;
    tail := [];
    if k < IterationCap(spec, request) {
      IterationIsExplained(w, spec, request, st, k + 1);
      match Step(w, spec, request, st, k + 1) {
        case Next(next) =>
          var said :| GoesOn(w, spec, request, st, k + 1, said, next);
          var asks, answers := next.history[|Shown(st)|], next.history[|Shown(st)| + 1];
          assert next.history == Shown(st) + [asks, answers] == Shown(next);
          var rest := RunReadsBack(w, spec, request, next, k + 1);
          tail := [asks, answers] + rest;
          assert Shown(st) + tail == Shown(next) + rest;
          var out := RunFrom(w, spec, request, next, k + 1);
          if out.Completed? {
            OneMoreExchange(w, spec.tools, st.history, st.pending, k, said, asks, answers, rest,
              Some(out.result.output));
          } else if out.failure.AgentFailure? && out.failure.error.MaxIterationsError? {
            OneMoreExchange(w, spec.tools, st.history, st.pending, k, said, asks, answers, rest, None);
          }
        case Finished(result, _) =>
          var said :| Returns(w, spec, request, st, k + 1, said, result);
          tail := [result.messages[|Shown(st)|]];
          assert result.messages == Shown(st) + tail;
          assert ReadsBackFrom(w, spec.tools, st.history, st.pending, k, tail, Some(result.output), said);
        case Aborted(failure, last) =>
          var after :| Because(w, spec, request, st, k + 1, failure, after);
      }
    }
  }

  // A whole run: the conversation given or the system prompt, the user's input, and what
  // reads back to the output; the iteration limit is the request's unless that is zero.
  lemma CompletedRunReadsBack(
      w: World, spec: AgentSpec, request: RunRequest, initial: Option<seq<Message>>) returns (tail: seq<Message>)
    ensures var out := Run(w, spec, request, initial);
            var start := if initial.Some? then initial.value
                         else if spec.systemPrompt == "" then []
                         else [SystemMessage([TextBlock(spec.systemPrompt, false)])];
            var input := UserMessage([TextBlock(request.input, false)]);
            && (out.Completed? ==>
                  && out.result.messages == start + [input] + tail && |tail| == 2 * out.result.iterations - 1
                  && ReadsBack(w, spec.tools, start, Some(input), 0, tail, Some(out.result.output)))
            && (out.Raised? && out.failure.AgentFailure? && out.failure.error.MaxIterationsError? ==>
                  var limit := out.failure.error.limit;
                  && (if request.maxIterations in {None, Some(0)} then limit == spec.maxIterations
                      else request.maxIterations == Some(limit))
                  && |tail| == (if limit > 0 then 2 * limit else 0)
                  && ReadsBack(w, spec.tools, start, Some(input), 0, tail, None))
  {
    hide Step, ReadsBack;
    var st := InitialState(spec, request, initial);
    tail := RunReadsBack(w, spec, request, st, 0);
  }

  // ---------- events ----------

  // The text if there is any, then one start for each call, under the id of its tool, then
  // as many true completions.
  ghost predicate TrueEvents(
      w: World, tools: map<string, string>, k: int, said: Response, completed: nat, events: seq<Event>)
  {
    var n, t := |said.toolCalls|, if said.text == "" then 0 else 1;
    && |events| == t + n + completed && completed in {0, n}
    && (t == 1 ==> events[0] == TextDelta(said.text))
    && (forall i :: 0 <= i < n ==> TrueStart(tools, said.toolCalls[i], events[t..][i]))
    && (forall i :: 0 <= i < completed ==> TrueCompletion(w, tools, k, i, said.toolCalls[i], events[t + n..][i]))
  }

  ghost predicate TrueStart(tools: map<string, string>, call: ToolCall, e: Event) {
    && e.ToolCallStarted? && e.callId == call.callId && e.toolName == call.toolName && e.args == call.arguments
    && (if call.toolName in tools then e.toolId == tools[call.toolName] else e.toolId == "phronesis.tools.unknown")
  }

  ghost predicate TrueCompletion(
      w: World, tools: map<string, string>, k: int, i: nat, call: ToolCall, e: Event)
  {
    e.ToolCallCompleted? && e.callId == call.callId && Deserves(w, tools, k, i, Asking(call), e.output, e.isError)
  }

  lemma {:induction false} StartsInPlace(tools: map<string, string>, calls: seq<ToolUse>)
    ensures |StartedEvents(tools, calls)| == |calls|
    ensures forall i :: 0 <= i < |calls| ==> StartedEvents(tools, calls)[i] == StartedEvent(tools, calls[i])
  {
    if calls != [] {
      StartsInPlace(tools, calls[..|calls| - 1]);
    }
  }

  lemma {:induction false} CompletionsInPlace(blocks: seq<Block>)
    requires forall b :: b in blocks ==> b.ToolResultBlock?
    ensures |CompletedEvents(blocks)| == |blocks|
    ensures forall i :: 0 <= i < |blocks| ==>
              CompletedEvents(blocks)[i] == ToolCallCompleted(blocks[i].callId, blocks[i].output, blocks[i].isError)
  {
    if blocks != [] {
      CompletionsInPlace(blocks[..|blocks| - 1]);
    }
  }

  // What one iteration yields: nothing before the provider's answer is paid for, and then
  // the truth about it; completions only when no call crashed.
  lemma EventsAreTrue(w: World, spec: AgentSpec, request: RunRequest, st: RunState, k: int)
    ensures var events, r := StepEvents(w, spec, request, st, k), Step(w, spec, request, st, k);
            && (forall said :: Heard(w, k, st.history, st.pending, said)
                               && Affordable(spec, request, MergeReported(st.usage, said.usage)) ==>
                  TrueEvents(w, spec.tools, k, said, if r.Next? then |said.toolCalls| else 0, events))
            && ((forall said :: Heard(w, k, st.history, st.pending, said) ==>
                   !Affordable(spec, request, MergeReported(st.usage, said.usage))) ==> events == [])
  {
    hide WireHistory, AnswerEvents, AfterAnswer, Affordable, MergeReported;
    var built := w.build(k, st.history, st.pending);
    if built.Ok? && w.complete(k, WireHistory(built.value)).Answered? {
      var said := w.complete(k, WireHistory(built.value)).response;
      assert Heard(w, k, st.history, st.pending, said);
      AnswerEventsAreTrue(w, spec, request, AbsorbInput(st), k, said);
    }
  }

  lemma AnswerEventsAreTrue(
      w: World, spec: AgentSpec, request: RunRequest, asked: RunState, k: int, said: Response)
    ensures var events, r := AnswerEvents(w, spec, request, asked, k, said),
                             AfterAnswer(w, spec, request, asked, k, said);
            if Affordable(spec, request, MergeReported(asked.usage, said.usage))
            then TrueEvents(w, spec.tools, k, said, if r.Next? then |said.toolCalls| else 0, events)
            else events == []
  {
    hide EstimateCost, CheckBudget, MergeReported, Affordable, CallResults, StartedEvents, CompletedEvents;
    var usage := MergeReported(asked.usage, said.usage);
    BudgetIsExact(spec, request, usage);
    var calls := Requested(said.toolCalls);
    StartsInPlace(spec.tools, calls);
    ResultsAreTrue(w, spec.tools, k, calls);
    var blocks := CallResults(w, spec.tools, k, calls, |calls|);
    if Affordable(spec, request, usage) {
      var text, starts := TextEvents(said.text), StartedEvents(spec.tools, calls);
      if calls == [] {
        assert text + starts == text;
      } else if blocks.Ok? {
        ResultsInOrder(w, spec.tools, k, calls, |calls|);
        CompletionsInPlace(blocks.value);
        EventsInPlace(w, spec.tools, k, said, text, starts, CompletedEvents(blocks.value));
      } else {
        assert text + starts + [] == text + starts;
        EventsInPlace(w, spec.tools, k, said, text, starts, []);
      }
    }
  }

  lemma EventsInPlace(w: World, tools: map<string, string>, k: int, said: Response, text: seq<Event>,
                      starts: seq<Event>, completions: seq<Event>)
    requires text == if said.text == "" then [] else [TextDelta(said.text)]
    requires |starts| == |said.toolCalls| && |completions| in {0, |said.toolCalls|}
    requires forall i :: 0 <= i < |starts| ==> TrueStart(tools, said.toolCalls[i], starts[i])
    requires forall i :: 0 <= i < |completions| ==>
               TrueCompletion(w, tools, k, i, said.toolCalls[i], completions[i])
    ensures TrueEvents(w, tools, k, said, |completions|, text + starts + completions)
  {
    hide TrueStart, TrueCompletion;
    var events := text + starts + completions;
    var t, n := |text|, |starts|;
    forall i | 0 <= i < n ensures events[t..][i] == starts[i] {
    }
    forall i | 0 <= i < |completions| ensures events[t + n..][i] == completions[i] {
    }
  }

  // ---------- the bill ----------

  // What a completed run reports as its cost is every reported counter at its own rate.
  lemma CompletedRunIsPriced(w: World, spec: AgentSpec, request: RunRequest, initial: Option<seq<Message>>)
    ensures var out := Run(w, spec, request, initial);
            var reports := Reported(CallLog(w, spec, request, InitialState(spec, request, initial), 0));
            out.Completed? ==>
              && (out.result.costUsd.Some? <==> spec.pricing.Some?)
              && (spec.pricing.Some? ==>
                    out.result.costUsd.value * 1000000.0
                    == SumReported(Counts(reports, Input)) as real * spec.pricing.value.input
                       + SumReported(Counts(reports, Output)) as real * spec.pricing.value.output
                       + SumReported(Counts(reports, CacheRead)) as real * spec.pricing.value.cacheRead
                       + SumReported(Counts(reports, CacheCreation)) as real * spec.pricing.value.cacheWrite)
  {
    hide RunFrom, CallLog, Reported, Counts, SumReported, EstimateCost, Costs, TotalUsage, MergeTokens;
    var st := InitialState(spec, request, initial);
    var reports, out := Reported(CallLog(w, spec, request, st, 0)), Run(w, spec, request, initial);
    OutcomeAccounts(w, spec, request, st, 0);
    MergeIdentity(TotalUsage(reports));
    TotalUsageMeaning(reports, Input);
    TotalUsageMeaning(reports, Output);
    TotalUsageMeaning(reports, CacheRead);
    TotalUsageMeaning(reports, CacheCreation);
    CostIsExact(spec, TotalUsage(reports));
    if out.Completed? && spec.pricing.Some? {
      CostOfCounters(spec.pricing, TotalUsage(reports), out.result.costUsd.value);
    }
  }

  lemma CostOfCounters(pricing: Option<Pricing>, u: TokenUsage, cost: real)
    requires Costs(pricing, u, cost)
    ensures cost * 1000000.0
         == OrZero(u.input) as real * pricing.value.input + OrZero(u.output) as real * pricing.value.output
            + OrZero(u.cacheRead) as real * pricing.value.cacheRead
            + OrZero(u.cacheCreation) as real * pricing.value.cacheWrite
  {
    hide Priced;
    PricedOrZero(u.input, pricing.value.input);
    PricedOrZero(u.output, pricing.value.output);
    PricedOrZero(u.cacheRead, pricing.value.cacheRead);
    PricedOrZero(u.cacheCreation, pricing.value.cacheWrite);
  }

  lemma PricedOrZero(count: Option<int>, rate: real)
    ensures Priced(count, rate) == OrZero(count) as real * rate
  {
    NothingPriced(rate);
  }
}
