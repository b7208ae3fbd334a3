/** Runs and sessions with a shipped context builder, or any chain of them: what they show
    the provider. */
module AgentContexts {
  import opened Wrappers
  import opened Messages
  import opened Translation
  import opened AgentLoop
  import opened AgentRuns
  import opened Compaction
  import opened CompactionLaws
  import opened Sessions

  // The builder made this list of the conversation, under some prompt and provider.
  ghost predicate MadeBy(b: Builder, history: seq<Message>, pending: Option<Message>, built: seq<Message>) {
    exists input: BuildInput ::
      input.history == history && input.newInput == pending && Build(b, input) == Ok(built)
  }

  // Whatever the run's builder returns, this builder made it.
  ghost predicate BuildsWith(w: World, b: Builder) {
    forall k, history, pending :: w.build(k, history, pending).Ok? ==>
      MadeBy(b, history, pending, w.build(k, history, pending).value)
  }

  // In every iteration of a run from a paired conversation, compacted or not, the list
  // shown to the provider is paired on the wire.
  lemma EveryShownListIsPaired(
      w: World, spec: AgentSpec, request: RunRequest, initial: Option<seq<Message>>, n: nat, b: Builder)
    requires initial.Some? ==> WellPaired(initial.value)
    requires BuildsWith(w, b)
    ensures var s := StateAfter(w, spec, request, InitialState(spec, request, initial), 0, n);
      s.Some? ==>
        var built := w.build(n + 1, s.value.history, s.value.pending);
        built.Ok? ==> WirePaired(WireHistory(built.value), [])
  {
    hide StateAfter, Build, WirePaired, WireHistory;
    var st := InitialState(spec, request, initial);
    StartIsReady(spec, request, initial);
    EveryIterationIsPaired(w, spec, request, st, 0, n);
    var s := StateAfter(w, spec, request, st, 0, n);
    if s.Some? {
      var built := w.build(n + 1, s.value.history, s.value.pending);
      if built.Ok? {
        assert MadeBy(b, s.value.history, s.value.pending, built.value);
        var input: BuildInput :| input.history == s.value.history && input.newInput == s.value.pending
                                 && Build(b, input) == Ok(built.value);
        BuildPairedOnWire(b, input);
      }
    }
  }

  lemma StartIsReady(spec: AgentSpec, request: RunRequest, initial: Option<seq<Message>>)
    requires initial.Some? ==> WellPaired(initial.value)
    ensures Ready(InitialState(spec, request, initial))
  {
    assert ToolFree(UserInput(request));
  }

  // So it is in every turn of a session, whatever turns and resets came before.
  lemma SessionsShowPairedLists(spec: AgentSpec, uses: seq<Use>, i: nat, n: nat, b: Builder)
    requires i < |uses| && uses[i].TurnUse?
    requires BuildsWith(uses[i].w, b)
    ensures var (w, request, messages) := (uses[i].w, uses[i].request, MessagesAfter(spec, uses, i));
      var initial := if messages != [] then Some(messages) else None;
      var s := StateAfter(w, spec, request, InitialState(spec, request, initial), 0, n);
      s.Some? ==>
        var built := w.build(n + 1, s.value.history, s.value.pending);
        built.Ok? ==> WirePaired(WireHistory(built.value), [])
  {
    hide StateAfter, Build, WirePaired, WireHistory, BuildsWith;
    var messages := MessagesAfter(spec, uses, i);
    SessionInvariant(spec, uses, i);
    var initial := if messages != [] then Some(messages) else None;
    EveryShownListIsPaired(uses[i].w, spec, uses[i].request, initial, n, b);
  }
}
