/** What every run of the tool-calling loop keeps, for every provider, tool,
    builder and parser behaviour: the pairing of calls and results in the history,
    and the token, cost and iteration caps. */
module AgentRuns {
  import opened Wrappers
  import opened JsonValue
  import opened Usage
  import opened Messages
  import opened Translation
  import opened AgentLoop

  // ---------- tool execution ----------

  // Executing the calls of one response succeeds exactly when none crashes, and then
  // gives one result per call, in call order, under the call's own id; otherwise the
  // first crashing call is the one reported.
  lemma CallResultsExact(w: World, tools: map<string, string>, k: int, calls: seq<ToolUse>)
    ensures var r := CallResults(w, tools, k, calls, |calls|);
      && (r.Ok? <==> forall i :: 0 <= i < |calls| ==> !InvokeTool(w, tools, k, i, calls[i]).Crashed?)
      && (r.Ok? ==>
            |r.value| == |calls| && ResultIds(r.value) == CallIds(calls)
            && forall i :: 0 <= i < |calls| ==>
                 !InvokeTool(w, tools, k, i, calls[i]).Crashed?
                 && r.value[i] == ResultBlock(calls[i], InvokeTool(w, tools, k, i, calls[i])))
      && (r.Err? ==>
            exists i :: 0 <= i < |calls| && InvokeTool(w, tools, k, i, calls[i]).Crashed?
              && r.error == ToolCrashError(calls[i].toolName)
              && forall j :: 0 <= j < i ==> !InvokeTool(w, tools, k, j, calls[j]).Crashed?)
  {
    var r := CallResults(w, tools, k, calls, |calls|);
    if r.Ok? {
      ResultsInOrder(w, tools, k, calls, |calls|);
      IdsInOrder(r.value, calls);
    } else {
      var i := FirstCrash(w, tools, k, calls, |calls|);
    }
  }

  lemma {:induction false} ResultsInOrder(w: World, tools: map<string, string>, k: int, calls: seq<ToolUse>, n: nat)
    requires n <= |calls| && CallResults(w, tools, k, calls, n).Ok?
    ensures var blocks := CallResults(w, tools, k, calls, n).value;
      && |blocks| == n
      && forall i :: 0 <= i < n ==>
           !InvokeTool(w, tools, k, i, calls[i]).Crashed?
           && blocks[i] == ResultBlock(calls[i], InvokeTool(w, tools, k, i, calls[i]))
  {
    if n > 0 {
      ResultsInOrder(w, tools, k, calls, n - 1);
    }
  }

  lemma {:induction false} FirstCrash(w: World, tools: map<string, string>, k: int, calls: seq<ToolUse>, n: nat)
    returns (i: nat)
    requires n <= |calls| && CallResults(w, tools, k, calls, n).Err?
    ensures i < n && InvokeTool(w, tools, k, i, calls[i]).Crashed?
    ensures CallResults(w, tools, k, calls, n) == Err(ToolCrashError(calls[i].toolName))
    ensures forall j :: 0 <= j < i ==> !InvokeTool(w, tools, k, j, calls[j]).Crashed?
  {
    if CallResults(w, tools, k, calls, n - 1).Err? {
      i := FirstCrash(w, tools, k, calls, n - 1);
    } else {
      ResultsInOrder(w, tools, k, calls, n - 1);
      i := n - 1;
    }
  }

  lemma {:induction false} ResultIdsSnoc(blocks: seq<Block>, b: Block)
    requires b.ToolResultBlock?
    ensures ResultIds(blocks + [b]) == ResultIds(blocks) + [b.callId]
  {
    var all := blocks + [b];
    if blocks == [] {
      assert all == [b] && ResultIds(all[1..]) == [];
    } else {
      var head := if blocks[0].ToolResultBlock? then [blocks[0].callId] else [];
      assert all[0] == blocks[0] && all[1..] == blocks[1..] + [b];
      ResultIdsSnoc(blocks[1..], b);
      assert head + (ResultIds(blocks[1..]) + [b.callId]) == (head + ResultIds(blocks[1..])) + [b.callId];
    }
  }

  lemma {:induction false} IdsInOrder(blocks: seq<Block>, calls: seq<ToolUse>)
    requires |blocks| == |calls|
    requires forall i :: 0 <= i < |calls| ==> blocks[i].ToolResultBlock? && blocks[i].callId == calls[i].callId
    ensures ResultIds(blocks) == CallIds(calls)
  {
    if calls != [] {
      IdsInOrder(blocks[1..], calls[1..]);
    }
  }

  lemma {:induction false} ToolUsesConcat(a: seq<Block>, b: seq<Block>)
    ensures ToolUses(a + b) == ToolUses(a) + ToolUses(b)
  {
    if a == [] {
      assert a + b == b;
    } else {
      var head := if a[0].ToolUseBlock? then [a[0].use] else [];
      assert (a + b)[0] == a[0] && (a + b)[1..] == a[1..] + b;
      ToolUsesConcat(a[1..], b);
      assert head + (ToolUses(a[1..]) + ToolUses(b)) == (head + ToolUses(a[1..])) + ToolUses(b);
    }
  }

  lemma {:induction false} ToolUsesOfUseBlocks(uses: seq<ToolUse>)
    ensures ToolUses(UseBlocks(uses)) == uses
  {
    if uses != [] {
      var front, last := uses[..|uses| - 1], uses[|uses| - 1];
      ToolUsesOfUseBlocks(front);
      ToolUsesConcat(UseBlocks(front), [ToolUseBlock(last)]);
      assert ToolUses([ToolUseBlock(last)]) == [last];
    }
  }

  // The assistant message asks for exactly the calls of the response, in order.
  lemma AssistantAsksForItsCalls(response: Response)
    ensures ToolUses(AssistantFrom(response).content) == Requested(response.toolCalls)
  {
    ToolUsesConcat(TextBlocks(response.text), UseBlocks(Requested(response.toolCalls)));
    ToolUsesOfUseBlocks(Requested(response.toolCalls));
    assert ToolUses(TextBlocks(response.text)) == [];
  }

  // ---------- the pairing invariant ----------

  ghost predicate Ready(st: RunState) {
    WellPaired(st.history) && (st.pending.Some? ==> ToolFree(st.pending.value))
  }

  // The conversation this state is about to show the provider.
  function Absorbed(st: RunState): seq<Message> {
    AbsorbInput(st).history
  }

  ghost predicate EndsToolFree(h: seq<Message>) {
    h != [] && h[|h| - 1].AssistantMessage? && AskedIds(h[|h| - 1]) == []
  }

  lemma AnswerKeepsPairing(
      w: World, spec: AgentSpec, request: RunRequest, asked: RunState, k: int, response: Response)
    requires WellPaired(asked.history) && asked.pending.None?
    ensures var r := AfterAnswer(w, spec, request, asked, k, response);
      && (r.Next? ==> Ready(r.state) && r.state.pending.None? && asked.history <= r.state.history)
      && (r.Finished? ==>
            WellPaired(r.result.messages) && EndsToolFree(r.result.messages) && asked.history <= r.result.messages)
      && (r.Aborted? ==> r.failure.AgentFailure? && !r.failure.error.MaxIterationsError?)
  {
    var message, requested := AssistantFrom(response), Requested(response.toolCalls);
    AssistantAsksForItsCalls(response);
    if requested == [] {
      AppendPlain(asked.history, message);
    } else {
      CallResultsExact(w, spec.tools, k, requested);
      var blocks := CallResults(w, spec.tools, k, requested, |requested|);
      if blocks.Ok? {
        AppendExchange(asked.history, message, ToolMessage(blocks.value));
      }
    }
  }

  lemma StepKeepsPairing(w: World, spec: AgentSpec, request: RunRequest, st: RunState, k: int)
    requires Ready(st)
    ensures var r := Step(w, spec, request, st, k);
      && (r.Next? ==> Ready(r.state) && r.state.pending.None? && Absorbed(st) <= r.state.history)
      && (r.Finished? ==>
            WellPaired(r.result.messages) && EndsToolFree(r.result.messages) && Absorbed(st) <= r.result.messages)
      && (r.Aborted? && r.failure.AgentFailure? ==> !r.failure.error.MaxIterationsError?)
  {
    if st.pending.Some? {
      AppendPlain(st.history, st.pending.value);
    }
    var built := w.build(k, st.history, st.pending);
    if built.Ok? && w.complete(k, WireHistory(built.value)).Answered? {
      AnswerKeepsPairing(w, spec, request, AbsorbInput(st), k, w.complete(k, WireHistory(built.value)).response);
    }
  }

  // The state after `n` more completed iterations, if the run gets that far.
  function StateAfter(w: World, spec: AgentSpec, request: RunRequest, st: RunState, k: int, n: nat): Option<RunState>
    decreases n
  {
    if n == 0 then Some(st)
    else if k >= IterationCap(spec, request) then None
    else
      match Step(w, spec, request, st, k + 1)
      case Next(next) => StateAfter(w, spec, request, next, k + 1, n - 1)
      case _ => None
  }

  // Every state a run passes through is paired and only extends the one before.
  lemma {:induction false} EveryIterationIsPaired(
      w: World, spec: AgentSpec, request: RunRequest, st: RunState, k: int, n: nat)
    requires Ready(st)
    ensures var s := StateAfter(w, spec, request, st, k, n);
      s.Some? ==> Ready(s.value) && st.history <= s.value.history && (n > 0 ==> Absorbed(st) <= s.value.history)
    decreases n
  {
    hide Step, Ready;
    if n > 0 && k < IterationCap(spec, request) {
      StepKeepsPairing(w, spec, request, st, k + 1);
      var r := Step(w, spec, request, st, k + 1);
      if r.Next? {
        EveryIterationIsPaired(w, spec, request, r.state, k + 1, n - 1);
      }
    }
  }

  // From a paired start, a run that completes returns a paired history that extends
  // the start and the user's input and ends in a tool-free assistant message; a run
  // that exhausts its iterations leaves a paired history too.
  lemma {:induction false} RunKeepsPairing(w: World, spec: AgentSpec, request: RunRequest, st: RunState, k: int)
    requires Ready(st)
    ensures var out := RunFrom(w, spec, request, st, k);
      && (out.Completed? ==>
            WellPaired(out.result.messages) && EndsToolFree(out.result.messages)
            && Absorbed(st) <= out.result.messages)
      && (out.Raised? && out.failure.AgentFailure? && out.failure.error.MaxIterationsError? ==>
            WellPaired(out.last.history))
    decreases IterationCap(spec, request) - k
  {
    if k < IterationCap(spec, request) {
      StepKeepsPairing(w, spec, request, st, k + 1);
      var r := Step(w, spec, request, st, k + 1);
      if r.Next? {
        RunKeepsPairing(w, spec, request, r.state, k + 1);
        assert Absorbed(r.state) == r.state.history;
      }
    }
  }

  // Everything the run returns as `tool_calls` is what its new assistant messages
  // ask for, in order.
  lemma {:induction false} ResultListsItsCalls(w: World, spec: AgentSpec, request: RunRequest, st: RunState, k: int)
    requires Ready(st) && st.calls == AllUses(st.history)
    ensures var out := RunFrom(w, spec, request, st, k);
      out.Completed? ==> out.result.toolCalls == AllUses(out.result.messages)
    decreases IterationCap(spec, request) - k
  {
    hide Step, AllUses, Ready;
    if k < IterationCap(spec, request) {
      var r := Step(w, spec, request, st, k + 1);
      StepListsItsCalls(w, spec, request, st, k + 1);
      if r.Next? {
        StepKeepsPairing(w, spec, request, st, k + 1);
        ResultListsItsCalls(w, spec, request, r.state, k + 1);
      }
    }
  }

  lemma StepListsItsCalls(w: World, spec: AgentSpec, request: RunRequest, st: RunState, k: int)
    requires Ready(st) && st.calls == AllUses(st.history)
    ensures var r := Step(w, spec, request, st, k);
      && (r.Next? ==> r.state.calls == AllUses(r.state.history))
      && (r.Finished? ==> r.result.toolCalls == AllUses(r.result.messages))
  {
    var asked := AbsorbInput(st);
    if st.pending.Some? {
      AllUsesSnoc(st.history, st.pending.value);
      ToolFreeUsesNothing(st.pending.value);
    }
    var built := w.build(k, st.history, st.pending);
    if built.Ok? && w.complete(k, WireHistory(built.value)).Answered? {
      AnswerListsItsCalls(w, spec, request, asked, k, w.complete(k, WireHistory(built.value)).response);
    }
  }

  lemma AnswerListsItsCalls(
      w: World, spec: AgentSpec, request: RunRequest, asked: RunState, k: int, response: Response)
    requires asked.calls == AllUses(asked.history)
    ensures var r := AfterAnswer(w, spec, request, asked, k, response);
      && (r.Next? ==> r.state.calls == AllUses(r.state.history))
      && (r.Finished? ==> r.result.toolCalls == AllUses(r.result.messages))
  {
    var requested := Requested(response.toolCalls);
    AssistantAsksForItsCalls(response);
    var answered := asked.history + [AssistantFrom(response)];
    assert AllUses(answered) == asked.calls + requested by {
      AllUsesSnoc(asked.history, AssistantFrom(response));
    }
    if requested != [] {
      var blocks := CallResults(w, spec.tools, k, requested, |requested|);
      if blocks.Ok? {
        AllUsesSnoc(answered, ToolMessage(blocks.value));
        assert AllUses(answered + [ToolMessage(blocks.value)]) == asked.calls + requested + [];
      }
    }
  }

  lemma ToolFreeUsesNothing(m: Message)
    requires ToolFree(m)
    ensures UsesOf(m) == []
  {
    if m.AssistantMessage? {
      assert |CallIds(ToolUses(m.content))| == |ToolUses(m.content)|;
    }
  }

  lemma {:induction false} AllUsesSnoc(h: seq<Message>, m: Message)
    ensures AllUses(h + [m]) == AllUses(h) + UsesOf(m)
  {
    if h == [] {
      assert h + [m] == [m];
      assert AllUses([m]) == UsesOf(m) + AllUses([]);
    } else {
      assert (h + [m])[0] == h[0] && (h + [m])[1..] == h[1..] + [m];
      AllUsesSnoc(h[1..], m);
    }
  }

  // ---------- budgets ----------

  // One provider call: what had been spent before it, and what came back.
  datatype ProviderCall = ProviderCall(before: TokenUsage, answer: Answer)

  // Every provider call a run makes, in order.
  function CallLog(w: World, spec: AgentSpec, request: RunRequest, st: RunState, k: int): seq<ProviderCall>
    decreases IterationCap(spec, request) - k
  {
    if k >= IterationCap(spec, request) then [] else
    var built := w.build(k + 1, st.history, st.pending);
    if built.Err? then [] else
    var call := ProviderCall(st.usage, w.complete(k + 1, WireHistory(built.value)));
    match Step(w, spec, request, st, k + 1)
    case Next(next) => [call] + CallLog(w, spec, request, next, k + 1)
    case _ => [call]
  }

  function Reported(log: seq<ProviderCall>): seq<TokenUsage> {
    if log == [] then []
    else
      (if log[0].answer.Answered? && log[0].answer.response.usage.Some?
       then [log[0].answer.response.usage.value] else [])
      + Reported(log[1..])
  }

  ghost predicate WithinCaps(spec: AgentSpec, request: RunRequest, u: TokenUsage) {
    && (request.maxTokens.Some? ==> TokenTotal(u) <= request.maxTokens.value)
    && (request.maxCostUsd.Some? && spec.pricing.Some? ==>
          EstimateCost(spec.pricing, u).value <= request.maxCostUsd.value)
  }

  // Accounting from any state: each call sees the start plus everything reported
  // before it, and every call but the first is made within both caps.
  lemma {:induction false} CallLogAccounts(w: World, spec: AgentSpec, request: RunRequest, st: RunState, k: int, i: nat)
    requires i < |CallLog(w, spec, request, st, k)|
    ensures var log := CallLog(w, spec, request, st, k);
      && log[i].before == MergeTokens(st.usage, TotalUsage(Reported(log[..i])))
      && (i > 0 ==> WithinCaps(spec, request, log[i].before))
    decreases i
  {
    var log := CallLog(w, spec, request, st, k);
    if i == 0 {
      assert log[..0] == [];
      MergeIdentity(st.usage);
    } else {
      var next := Step(w, spec, request, st, k + 1).state;
      var rest := CallLog(w, spec, request, next, k + 1);
      CallLogAccounts(w, spec, request, next, k + 1, i - 1);
      assert log[0..1] == [log[0]] && log[i] == rest[i - 1];
      assert log[..i][0] == log[0] && log[..i][1..] == rest[..i - 1];
      UsageStep(st.usage, log[..i], next.usage);
      if i == 1 {
        assert rest[..0] == [];
        MergeIdentity(next.usage);
      }
    }
  }

  lemma UsageStep(before: TokenUsage, log: seq<ProviderCall>, after: TokenUsage)
    requires log != [] && log[0].answer.Answered?
    requires after == MergeReported(before, log[0].answer.response.usage)
    ensures MergeTokens(before, TotalUsage(Reported(log))) == MergeTokens(after, TotalUsage(Reported(log[1..])))
  {
    var usage := log[0].answer.response.usage;
    if usage.Some? {
      AddFirstReport(before, usage.value, Reported(log[1..]));
    } else {
      assert Reported(log) == Reported(log[1..]);
    }
  }

  // What a finished or over-budget iteration says about the spending so far.
  lemma AnswerAccounts(w: World, spec: AgentSpec, request: RunRequest, asked: RunState, k: int, response: Response)
    ensures var r := AfterAnswer(w, spec, request, asked, k, response);
      && r.state.usage == MergeReported(asked.usage, response.usage)
      && (r.Finished? ==>
            && r.result.tokens == r.state.usage && r.result.iterations == k
            && r.result.costUsd == EstimateCost(spec.pricing, r.state.usage)
            && WithinCaps(spec, request, r.state.usage))
      && (r.Aborted? && r.failure.AgentFailure? && r.failure.error.TokenBudgetError? ==>
            && request.maxTokens == Some(r.failure.error.threshold)
            && r.failure.error.observed == TokenTotal(r.state.usage) > request.maxTokens.value)
      && (r.Aborted? ==> r.failure.AgentFailure?)
  {
    var requested := Requested(response.toolCalls);
    var blocks := CallResults(w, spec.tools, k, requested, |requested|);
    if blocks.Err? {
      var i := FirstCrash(w, spec.tools, k, requested, |requested|);
    }
  }

  // How a run ends, in terms of the usage it started from and the calls it made.
  ghost predicate Fits(spec: AgentSpec, request: RunRequest, usage: TokenUsage, k: int, log: seq<ProviderCall>,
                       out: RunOutcome)
  {
    var spent := MergeTokens(usage, TotalUsage(Reported(log)));
    && (out.Completed? ==>
          && out.result.tokens == spent && out.result.iterations == k + |log|
          && out.result.costUsd == EstimateCost(spec.pricing, spent) && WithinCaps(spec, request, spent))
    && (out.Raised? && out.failure.AgentFailure? && out.failure.error.TokenBudgetError? ==>
          && log != [] && request.maxTokens == Some(out.failure.error.threshold)
          && out.failure.error.observed == TokenTotal(spent) > request.maxTokens.value)
  }

  lemma FitsStep(spec: AgentSpec, request: RunRequest, before: TokenUsage, k: int, log: seq<ProviderCall>,
                 after: TokenUsage, out: RunOutcome)
    requires log != [] && log[0].answer.Answered?
    requires after == MergeReported(before, log[0].answer.response.usage)
    requires Fits(spec, request, after, k + 1, log[1..], out)
    ensures Fits(spec, request, before, k, log, out)
  {
    UsageStep(before, log, after);
  }

  lemma FitsEnd(w: World, spec: AgentSpec, request: RunRequest, asked: RunState, k: int, response: Response,
                call: ProviderCall, r: StepResult, out: RunOutcome)
    requires r == AfterAnswer(w, spec, request, asked, k, response) && !r.Next?
    requires call.answer == Answered(response)
    requires out == match r
             case Finished(result, _) => Completed(result)
             case Aborted(failure, last) => Raised(failure, last, k)
    ensures Fits(spec, request, asked.usage, k - 1, [call], out)
  {
    AnswerAccounts(w, spec, request, asked, k, response);
    UsageStep(asked.usage, [call], r.state.usage);
    assert [call][1..] == [];
    MergeIdentity(r.state.usage);
  }

  lemma {:induction false} OutcomeAccounts(w: World, spec: AgentSpec, request: RunRequest, st: RunState, k: int)
    requires 0 <= k
    ensures var log, out := CallLog(w, spec, request, st, k), RunFrom(w, spec, request, st, k);
      var cap := IterationCap(spec, request);
      && (k <= cap ==> |log| <= cap - k) && (k > cap ==> log == [])
      && Fits(spec, request, st.usage, k, log, out)
    decreases IterationCap(spec, request) - k
  {
    hide Fits, AfterAnswer, IterationCap;
    var cap := IterationCap(spec, request);
    var log, out := CallLog(w, spec, request, st, k), RunFrom(w, spec, request, st, k);
    var built := w.build(k + 1, st.history, st.pending);
    if k < cap && built.Ok? && w.complete(k + 1, WireHistory(built.value)).Answered? {
      var response := w.complete(k + 1, WireHistory(built.value)).response;
      var r := AfterAnswer(w, spec, request, AbsorbInput(st), k + 1, response);
      assert r == Step(w, spec, request, st, k + 1);
      if r.Next? {
        AnswerAccounts(w, spec, request, AbsorbInput(st), k + 1, response);
        OutcomeAccounts(w, spec, request, r.state, k + 1);
        assert log[1..] == CallLog(w, spec, request, r.state, k + 1);
        FitsStep(spec, request, st.usage, k, log, r.state.usage, out);
      } else {
        FitsEnd(w, spec, request, AbsorbInput(st), k + 1, response, log[0], r, out);
        assert log == [log[0]];
      }
    } else {
      FitsNothing(spec, request, st.usage, k, log, out);
    }
  }

  lemma FitsNothing(spec: AgentSpec, request: RunRequest, usage: TokenUsage, k: int, log: seq<ProviderCall>,
                    out: RunOutcome)
    requires out.Raised? && (out.failure.AgentFailure? ==> !out.failure.error.TokenBudgetError?)
    ensures Fits(spec, request, usage, k, log, out)
  {
  }

  // Budget and iteration safety of a whole run: at most `max_iterations` provider
  // calls; each sees exactly what was reported before it; every call after the first
  // starts within the caps, so a run overshoots by at most one response; a returned
  // result is within the caps and counts everything reported.
  lemma BudgetSafety(w: World, spec: AgentSpec, request: RunRequest, initial: Option<seq<Message>>)
    ensures var st := InitialState(spec, request, initial);
      var log, out := CallLog(w, spec, request, st, 0), Run(w, spec, request, initial);
      var cap := IterationCap(spec, request);
      && |log| <= (if cap < 0 then 0 else cap)
      && (forall i :: 0 <= i < |log| ==> log[i].before == TotalUsage(Reported(log[..i])))
      && (forall i :: 0 < i < |log| ==> WithinCaps(spec, request, log[i].before))
      && (out.Completed? ==>
            && out.result.tokens == TotalUsage(Reported(log)) && out.result.iterations == |log|
            && WithinCaps(spec, request, out.result.tokens))
      && (out.Raised? && out.failure.AgentFailure? && out.failure.error.TokenBudgetError? ==>
            && log != [] && out.failure.error.observed == TokenTotal(TotalUsage(Reported(log)))
            && out.failure.error.observed > out.failure.error.threshold
            && (1 < |log| ==> TokenTotal(log[|log| - 1].before) <= out.failure.error.threshold))
  {
    var st := InitialState(spec, request, initial);
    var log := CallLog(w, spec, request, st, 0);
    OutcomeAccounts(w, spec, request, st, 0);
    MergeIdentity(TotalUsage(Reported(log)));
    forall i | 0 <= i < |log|
      ensures log[i].before == TotalUsage(Reported(log[..i]))
      ensures 0 < i ==> WithinCaps(spec, request, log[i].before)
    {
      CallLogAccounts(w, spec, request, st, 0, i);
      MergeIdentity(TotalUsage(Reported(log[..i])));
    }
  }
}
