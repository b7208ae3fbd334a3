/** The tool-calling loop (`agents/loop.py`): the abstract run, one iteration at a
    time, and the two programs that implement it. `RunLoop` keeps its state in
    local variables and returns a result or raises; the streaming twin in
    AgentStream.dfy mutates a state object and yields events. */
module AgentLoop {
  import opened Wrappers
  import opened JsonValue
  import opened Usage
  import opened Messages
  import opened ToolCalls
  import opened Translation

  // ---------- inputs ----------

  // USD per million tokens (`providers/pricing.py`).
  datatype Pricing = Pricing(input: real, output: real, cacheRead: real, cacheWrite: real)

  // `tools` maps each bound tool name to its tool id.
  datatype AgentSpec = AgentSpec(
    systemPrompt: string,
    tools: map<string, string>,
    maxIterations: int,
    pricing: Option<Pricing>)

  datatype RunRequest = RunRequest(
    input: string,
    maxIterations: Option<int>,
    maxTokens: Option<int>,
    maxCostUsd: Option<real>)

  datatype Response = Response(text: string, toolCalls: seq<ToolCall>, usage: Option<TokenUsage>)

  // A provider call returns a response, raises a ToolError, or raises anything else.
  datatype Answer = Answered(response: Response) | RaisedToolError(tag: string) | RaisedOther

  // A tool call returns a value, raises a ToolError (serialised for the model), or crashes.
  datatype ToolOutcome = Returned(output: Json) | ToolFailed(payload: Json) | Crashed

  // What a context builder raises: an AgentError of its own, or anything else.
  datatype BuildError = RaisedAgentError(tag: string) | RaisedForeign(tag: string)

  // Everything outside the loop, asked once per iteration: the context builder, the
  // provider, the bound tools (iteration, position, call) and the output parser.
  datatype World = World(
    build: (int, seq<Message>, Option<Message>) -> Result<seq<Message>, BuildError>,
    complete: (int, seq<WireMessage>) -> Answer,
    invoke: (int, int, ToolUse) -> ToolOutcome,
    coerce: string -> Option<Json>)

  // ---------- outputs ----------

  datatype AgentError =
    | MaxIterationsError(limit: int)
    | TokenBudgetError(threshold: int, observed: int)
    | CostBudgetError(costThreshold: real, costObserved: real)
    | ProviderError
    | ToolCrashError(toolName: string)
    | OutputValidationError(rawOutput: string)
    | BuilderError(tag: string)

  // A failure either belongs to the AgentError family, to which a builder can add, or is
  // a foreign exception (a builder's, or a ToolError escaping the provider) that the loop
  // lets through.
  datatype Failure = AgentFailure(error: AgentError) | Foreign(tag: string)

  datatype RunResult = RunResult(
    output: Json,
    tokens: TokenUsage,
    iterations: int,
    toolCalls: seq<ToolUse>,
    messages: seq<Message>,
    costUsd: Option<real>)

  // What the loop carries from one iteration to the next.
  datatype RunState = RunState(
    history: seq<Message>,
    pending: Option<Message>,
    usage: TokenUsage,
    calls: seq<ToolUse>)

  datatype RunOutcome = Completed(result: RunResult) | Raised(failure: Failure, last: RunState, iteration: int)

  // ---------- the pieces of one iteration ----------

  function MergeReported(left: TokenUsage, right: Option<TokenUsage>): TokenUsage {
    if right.None? then left else MergeTokens(left, right.value)
  }

  function EstimateCost(pricing: Option<Pricing>, u: TokenUsage): Option<real> {
    if pricing.None? then None else
    var p := pricing.value;
    Some((OrZero(u.input) as real * p.input
        + OrZero(u.output) as real * p.output
        + OrZero(u.cacheRead) as real * p.cacheRead
        + OrZero(u.cacheCreation) as real * p.cacheWrite) / 1000000.0)
  }

  function CheckBudget(request: RunRequest, u: TokenUsage, cost: Option<real>): Option<AgentError> {
    if request.maxTokens.Some? && TokenTotal(u) > request.maxTokens.value then
      Some(TokenBudgetError(request.maxTokens.value, TokenTotal(u)))
    else if request.maxCostUsd.Some? && cost.Some? && cost.value > request.maxCostUsd.value then
      Some(CostBudgetError(request.maxCostUsd.value, cost.value))
    else None
  }

  function BuildFailure(error: BuildError): Failure {
    match error
    case RaisedAgentError(tag) => AgentFailure(BuilderError(tag))
    case RaisedForeign(tag) => Foreign(tag)
  }

  function UseOf(call: ToolCall): ToolUse {
    ToolUse(call.callId, call.toolName, call.arguments)
  }

  function Requested(calls: seq<ToolCall>): (uses: seq<ToolUse>)
    ensures |uses| == |calls|
    ensures forall i :: 0 <= i < |calls| ==> uses[i] == UseOf(calls[i])
  {
    if calls == [] then [] else Requested(calls[..|calls| - 1]) + [UseOf(calls[|calls| - 1])]
  }

  function UseBlocks(uses: seq<ToolUse>): seq<Block> {
    if uses == [] then [] else UseBlocks(uses[..|uses| - 1]) + [ToolUseBlock(uses[|uses| - 1])]
  }

  function TextBlocks(text: string): seq<Block> {
    if text == "" then [] else [TextBlock(text, false)]
  }

  function AssistantFrom(response: Response): Message {
    AssistantMessage(TextBlocks(response.text) + UseBlocks(Requested(response.toolCalls)))
  }

  method AssistantMessageFromResponse(response: Response) returns (message: Message, requested: seq<ToolUse>)
    ensures message == AssistantFrom(response)
    ensures requested == Requested(response.toolCalls)
  {
    var blocks := TextBlocks(response.text);
    requested := [];
    for i := 0 to |response.toolCalls|
      invariant requested == Requested(response.toolCalls[..i])
      invariant blocks == TextBlocks(response.text) + UseBlocks(requested)
    {
      var use := UseOf(response.toolCalls[i]);
      assert response.toolCalls[..i + 1][..i] == response.toolCalls[..i];
      assert (requested + [use])[..|requested|] == requested;
      assert blocks + [ToolUseBlock(use)] == TextBlocks(response.text) + (UseBlocks(requested) + [ToolUseBlock(use)]);
      blocks := blocks + [ToolUseBlock(use)];
      requested := requested + [use];
    }
    assert response.toolCalls[..|response.toolCalls|] == response.toolCalls;
    message := AssistantMessage(blocks);
  }

  // A name no tool is bound to fails like any other tool error, for the model to read.
  function InvokeTool(w: World, tools: map<string, string>, k: int, i: int, call: ToolUse): ToolOutcome {
    if call.toolName in tools then w.invoke(k, i, call)
    else ToolFailed(Object(map["error" := String("tool_not_found"), "tool_name" := String(call.toolName)]))
  }

  function ResultBlock(call: ToolUse, outcome: ToolOutcome): Block
    requires !outcome.Crashed?
  {
    if outcome.Returned? then ToolResultBlock(call.callId, outcome.output, false)
    else ToolResultBlock(call.callId, outcome.payload, true)
  }

  // The results of calls[..n], in call order, or the first crash among them.
  function CallResults(w: World, tools: map<string, string>, k: int, calls: seq<ToolUse>, n: nat)
    : Result<seq<Block>, AgentError>
    requires n <= |calls|
  {
    if n == 0 then Ok([]) else
    var before := CallResults(w, tools, k, calls, n - 1);
    if before.Err? then before else
    var outcome := InvokeTool(w, tools, k, n - 1, calls[n - 1]);
    if outcome.Crashed? then Err(ToolCrashError(calls[n - 1].toolName))
    else Ok(before.value + [ResultBlock(calls[n - 1], outcome)])
  }

  lemma {:induction false} FirstCrashStays(w: World, tools: map<string, string>, k: int, calls: seq<ToolUse>,
                                           m: nat, n: nat)
    requires m <= n <= |calls|
    requires CallResults(w, tools, k, calls, m).Err?
    ensures CallResults(w, tools, k, calls, n) == CallResults(w, tools, k, calls, m)
  {
    if m < n {
      FirstCrashStays(w, tools, k, calls, m, n - 1);
    }
  }

  method ExecuteCalls(w: World, tools: map<string, string>, k: int, calls: seq<ToolUse>)
    returns (blocks: Result<seq<Block>, AgentError>)
    ensures blocks == CallResults(w, tools, k, calls, |calls|)
  {
    // gather: every call runs, and the outcomes come back in call order
    var outcomes: seq<ToolOutcome> := [];
    for i := 0 to |calls|
      invariant |outcomes| == i
      invariant forall j :: 0 <= j < i ==> outcomes[j] == InvokeTool(w, tools, k, j, calls[j])
    {
      outcomes := outcomes + [InvokeTool(w, tools, k, i, calls[i])];
    }
    var collected: seq<Block> := [];
    for i := 0 to |calls|
      invariant CallResults(w, tools, k, calls, i) == Ok(collected)
    {
      if outcomes[i].Crashed? {
        FirstCrashStays(w, tools, k, calls, i + 1, |calls|);
        return Err(ToolCrashError(calls[i].toolName));
      }
      collected := collected + [ResultBlock(calls[i], outcomes[i])];
    }
    return Ok(collected);
  }

  // ---------- one iteration ----------

  datatype StepResult =
    | Next(state: RunState)
    | Finished(result: RunResult, state: RunState)
    | Aborted(failure: Failure, state: RunState)

  function AbsorbInput(st: RunState): RunState {
    if st.pending.None? then st
    else st.(history := st.history + [st.pending.value], pending := None)
  }

  function Step(w: World, spec: AgentSpec, request: RunRequest, st: RunState, k: int): StepResult {
    var built := w.build(k, st.history, st.pending);
    if built.Err? then Aborted(BuildFailure(built.error), st) else
    var asked := AbsorbInput(st);
    match w.complete(k, WireHistory(built.value))
    case RaisedToolError(tag) => Aborted(Foreign(tag), asked)
    case RaisedOther => Aborted(AgentFailure(ProviderError), asked)
    case Answered(response) => AfterAnswer(w, spec, request, asked, k, response)
  }

  function AfterAnswer(w: World, spec: AgentSpec, request: RunRequest, asked: RunState, k: int, response: Response)
    : StepResult
  {
    var billed := asked.(usage := MergeReported(asked.usage, response.usage));
    var cost := EstimateCost(spec.pricing, billed.usage);
    var over := CheckBudget(request, billed.usage, cost);
    if over.Some? then Aborted(AgentFailure(over.value), billed) else
    var requested := Requested(response.toolCalls);
    var answered := billed.(history := billed.history + [AssistantFrom(response)], calls := billed.calls + requested);
    if requested == [] then
      var output := w.coerce(response.text);
      if output.None? then Aborted(AgentFailure(OutputValidationError(response.text)), answered)
      else Finished(
        RunResult(output.value, answered.usage, k, answered.calls, answered.history, cost), answered)
    else
      var blocks := CallResults(w, spec.tools, k, requested, |requested|);
      if blocks.Err? then Aborted(AgentFailure(blocks.error), answered)
      else Next(answered.(history := answered.history + [ToolMessage(blocks.value)]))
  }

  // ---------- whole runs ----------

  // `request.max_iterations or spec.max_iterations`: zero counts as not given.
  function IterationCap(spec: AgentSpec, request: RunRequest): int {
    if request.maxIterations.Some? && request.maxIterations.value != 0 then request.maxIterations.value
    else spec.maxIterations
  }

  function InitialHistory(spec: AgentSpec, initial: Option<seq<Message>>): seq<Message> {
    if initial.Some? then initial.value
    else if spec.systemPrompt != "" then [SystemMessage([TextBlock(spec.systemPrompt, false)])]
    else []
  }

  function UserInput(request: RunRequest): Message {
    UserMessage([TextBlock(request.input, false)])
  }

  function InitialState(spec: AgentSpec, request: RunRequest, initial: Option<seq<Message>>): RunState {
    RunState(InitialHistory(spec, initial), Some(UserInput(request)), NO_USAGE, [])
  }

  // Run to the end from state `st` with `k` iterations already consumed.
  function RunFrom(w: World, spec: AgentSpec, request: RunRequest, st: RunState, k: int): RunOutcome
    decreases IterationCap(spec, request) - k
  {
    if k >= IterationCap(spec, request) then
      Raised(AgentFailure(MaxIterationsError(IterationCap(spec, request))), st, k)
    else
      match Step(w, spec, request, st, k + 1)
      case Next(next) => RunFrom(w, spec, request, next, k + 1)
      case Finished(result, _) => Completed(result)
      case Aborted(failure, last) => Raised(failure, last, k + 1)
  }

  function Run(w: World, spec: AgentSpec, request: RunRequest, initial: Option<seq<Message>>): RunOutcome {
    RunFrom(w, spec, request, InitialState(spec, request, initial), 0)
  }

  // `_run_loop_inner`, with its state in local variables.
  method RunLoop(w: World, spec: AgentSpec, request: RunRequest, initial: Option<seq<Message>>)
    returns (outcome: RunOutcome)
    ensures outcome == Run(w, spec, request, initial)
  {
    var userInput := Some(UserMessage([TextBlock(request.input, false)]));
    var history;
    if initial.Some? {
      history := initial.value;
    } else if spec.systemPrompt != "" {
      history := [SystemMessage([TextBlock(spec.systemPrompt, false)])];
    } else {
      history := [];
    }
    var usage, toolCalls, iterations := NO_USAGE, [], 0;
    var cap := IterationCap(spec, request);
    while iterations < cap
      invariant RunFrom(w, spec, request, RunState(history, userInput, usage, toolCalls), iterations)
             == Run(w, spec, request, initial)
      decreases cap - iterations
    {
      iterations := iterations + 1;
      var built := w.build(iterations, history, userInput);
      if built.Err? {
        return Raised(BuildFailure(built.error), RunState(history, userInput, usage, toolCalls), iterations);
      }
      if userInput.Some? {
        history := history + [userInput.value];
        userInput := None;
      }
      var wire := TranslateHistory(built.value);
      var answer := w.complete(iterations, wire);
      if answer.RaisedToolError? {
        return Raised(Foreign(answer.tag), RunState(history, userInput, usage, toolCalls), iterations);
      }
      if answer.RaisedOther? {
        return Raised(AgentFailure(ProviderError), RunState(history, userInput, usage, toolCalls), iterations);
      }
      usage := MergeReported(usage, answer.response.usage);
      var cost := EstimateCost(spec.pricing, usage);
      var over := CheckBudget(request, usage, cost);
      if over.Some? {
        return Raised(AgentFailure(over.value), RunState(history, userInput, usage, toolCalls), iterations);
      }
      var message, requested := AssistantMessageFromResponse(answer.response);
      history := history + [message];
      toolCalls := toolCalls + requested;
      if requested == [] {
        var output := w.coerce(answer.response.text);
        if output.None? {
          return Raised(AgentFailure(OutputValidationError(answer.response.text)),
            RunState(history, userInput, usage, toolCalls), iterations);
        }
        return Completed(RunResult(output.value, usage, iterations, toolCalls, history, cost));
      }
      var blocks := ExecuteCalls(w, spec.tools, iterations, requested);
      if blocks.Err? {
        return Raised(AgentFailure(blocks.error), RunState(history, userInput, usage, toolCalls), iterations);
      }
      history := history + [ToolMessage(blocks.value)];
    }
    return Raised(AgentFailure(MaxIterationsError(cap)), RunState(history, userInput, usage, toolCalls), iterations);
  }
}
