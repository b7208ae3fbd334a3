/** Multi-turn sessions (`agents/session.py`): the conversation a session keeps
    between turns, over any sequence of turns and resets. */
module Sessions {
  import opened Wrappers
  import opened Messages
  import opened AgentLoop
  import opened AgentRuns

  // A turn continues from the stored messages, or seeds a fresh history without them.
  function Turn(w: World, spec: AgentSpec, request: RunRequest, messages: seq<Message>): RunOutcome {
    Run(w, spec, request, if messages != [] then Some(messages) else None)
  }

  class Session {
    const spec: AgentSpec
    var messages: seq<Message>

    constructor (spec: AgentSpec)
      ensures this.spec == spec && messages == []
    {
      this.spec := spec;
      messages := [];
    }

    // `Session.run`. A turn that raises leaves the conversation as it was.
    method RunTurn(w: World, request: RunRequest) returns (outcome: RunOutcome)
      modifies this`messages
      ensures outcome == Turn(w, spec, request, old(messages))
      ensures messages == if outcome.Completed? then outcome.result.messages else old(messages)
    {
      if messages != [] {
        outcome := RunLoop(w, spec, request, Some(messages));
      } else {
        outcome := RunLoop(w, spec, request, None);
      }
      if outcome.Completed? {
        messages := outcome.result.messages;
      }
    }

    method Reset()
      modifies this`messages
      ensures messages == []
    {
      messages := [];
    }
  }

  // ---------- any use of a session ----------

  datatype Use = TurnUse(w: World, request: RunRequest) | ResetUse

  function After(spec: AgentSpec, messages: seq<Message>, use: Use): seq<Message> {
    match use
    case ResetUse => []
    case TurnUse(w, request) =>
      var outcome := Turn(w, spec, request, messages);
      if outcome.Completed? then outcome.result.messages else messages
  }

  // The conversation after the first `n` uses of a new session.
  function MessagesAfter(spec: AgentSpec, uses: seq<Use>, n: nat): seq<Message>
    requires n <= |uses|
  {
    if n == 0 then [] else After(spec, MessagesAfter(spec, uses, n - 1), uses[n - 1])
  }

  // The class keeps exactly this conversation.
  method Drive(spec: AgentSpec, uses: seq<Use>) returns (session: Session)
    ensures fresh(session) && session.spec == spec
    ensures session.messages == MessagesAfter(spec, uses, |uses|)
  {
    hide Turn;
    session := new Session(spec);
    for i := 0 to |uses|
      invariant fresh(session) && session.spec == spec
      invariant session.messages == MessagesAfter(spec, uses, i)
    {
      if uses[i].ResetUse? {
        session.Reset();
      } else {
        var _ := session.RunTurn(uses[i].w, uses[i].request);
      }
    }
  }

  // What a conversation between turns always looks like.
  ghost predicate Settled(messages: seq<Message>) {
    WellPaired(messages) && (messages != [] ==> EndsToolFree(messages))
  }

  lemma TurnIsReady(spec: AgentSpec, request: RunRequest, messages: seq<Message>)
    requires Settled(messages)
    ensures Ready(InitialState(spec, request, if messages != [] then Some(messages) else None))
  {
    assert ToolFree(UserInput(request));
  }

  lemma TurnSettles(w: World, spec: AgentSpec, request: RunRequest, messages: seq<Message>)
    requires Settled(messages)
    ensures var out := Turn(w, spec, request, messages);
      out.Completed? ==> Settled(out.result.messages) && out.result.messages != []
  {
    hide RunFrom, Ready;
    var st := InitialState(spec, request, if messages != [] then Some(messages) else None);
    TurnIsReady(spec, request, messages);
    RunKeepsPairing(w, spec, request, st, 0);
    assert Absorbed(st) != [];
  }

  lemma NothingIsSettled()
    ensures Settled([])
  {
  }

  // Through any sequence of turns and resets: the conversation is always paired and,
  // once begun, ends in a tool-free assistant message; a turn only extends it, by the
  // user's input first; a failed turn changes nothing; a reset empties it.
  lemma {:induction false} SessionInvariant(spec: AgentSpec, uses: seq<Use>, n: nat)
    requires n <= |uses|
    ensures Settled(MessagesAfter(spec, uses, n))
  {
    hide Turn, WellPaired;
    NothingIsSettled();
    if n > 0 {
      SessionInvariant(spec, uses, n - 1);
      var before := MessagesAfter(spec, uses, n - 1);
      if uses[n - 1].TurnUse? {
        TurnSettles(uses[n - 1].w, spec, uses[n - 1].request, before);
      }
    }
  }

  lemma {:induction false} SessionOnlyGrows(spec: AgentSpec, uses: seq<Use>, m: nat, n: nat)
    requires m <= n <= |uses|
    requires forall i :: m <= i < n ==> uses[i].TurnUse?
    ensures MessagesAfter(spec, uses, m) <= MessagesAfter(spec, uses, n)
  {
    hide After, Settled;
    if m < n {
      var a, b, c := MessagesAfter(spec, uses, m), MessagesAfter(spec, uses, n - 1), MessagesAfter(spec, uses, n);
      assert a <= b by {
        SessionOnlyGrows(spec, uses, m, n - 1);
      }
      assert b <= c by {
        SessionInvariant(spec, uses, n - 1);
        UseExtends(spec, b, uses[n - 1]);
      }
      PrefixTransitive(a, b, c);
    }
  }

  lemma UseExtends(spec: AgentSpec, messages: seq<Message>, use: Use)
    requires Settled(messages) && use.TurnUse?
    ensures messages <= After(spec, messages, use)
  {
    TurnExtends(use.w, spec, use.request, messages);
  }

  lemma PrefixTransitive<T>(a: seq<T>, b: seq<T>, c: seq<T>)
    requires a <= b <= c
    ensures a <= c
  {
  }

  lemma TurnExtends(w: World, spec: AgentSpec, request: RunRequest, messages: seq<Message>)
    requires Settled(messages)
    ensures messages <= After(spec, messages, TurnUse(w, request))
    ensures var out := Turn(w, spec, request, messages);
      out.Completed? && messages != [] ==> messages + [UserInput(request)] <= out.result.messages
    ensures var out := Turn(w, spec, request, messages);
      out.Completed? && messages == [] ==> InitialHistory(spec, None) + [UserInput(request)] <= out.result.messages
  {
    hide RunFrom, Ready, WellPaired;
    var initial := if messages != [] then Some(messages) else None;
    var st := InitialState(spec, request, initial);
    TurnIsReady(spec, request, messages);
    RunKeepsPairing(w, spec, request, st, 0);
    var asked := InitialHistory(spec, initial) + [UserInput(request)];
    assert Absorbed(st) == asked;
    assert messages <= asked;
    var out := Turn(w, spec, request, messages);
    if out.Completed? {
      PrefixTransitive(messages, asked, out.result.messages);
    }
  }
}
