# Phronesis, modelled and proved in Dafny

Phronesis is a framework for building LLM agents. This project models its stateful
core and proves what that core promises, for every provider answer, tool outcome,
clock reading and input:

- **The tool-calling loop and its streaming twin** (`AgentLoop`, `AgentRuns`,
  `AgentStream`, `AgentTranscripts`, `Sessions`, `AgentContexts`). Providers, tools,
  builders and output parsers are oracles. The two programs are proved against one step
  function; every history they build pairs calls with results, tells the truth about
  them and reads back as the exchanges that made it; budgets hold, events follow a
  grammar.
- **Context compaction and wire translation** (`Messages`, `Translation`, `WireMeaning`,
  `Compaction`, `CompactionLaws`, `CompactionChoices`). Histories are cut, summarised,
  given recalled text and chained exactly when they should be, without separating calls
  from results, and the number of original messages is conserved.
- **Canonical tool schemas** (`Schema`, `SchemaPointers`, `SchemaMeaning`,
  `SchemaInlining`, `SchemaReferences`, `SchemaNulls`, `NullRemoval`, `SchemaMerges`,
  `CanonicalSchema`). Inlining and null removal preserve what a schema accepts, its
  references followed as JSON pointers through the whole document, for every
  interpretation of the keywords that satisfies a few laws; null goes from optional
  properties, and only there. Exact conditions: for termination; for leaving no
  reference; on one reference into the definitions, whatever its spelling; and, where all
  references are read right, on the data met.
- **The tool cache** (`ToolCache`, `CacheLaws`, `CachedTools`, `CachedToolLaws`,
  `CachedToolRuns`). Inclusion between two sizes, the exact recency order, exactly when a
  cached tool is transparent, and exactly when a larger cache never runs the function
  more often.
- **Runtime modes** (`Modes`, `ModeStories`, `TreeStories`, `Exceptions`, `Conservation`,
  `Losses`, `SequenceLaws`, `Ranking`, `TreeSearchLaws`). A mode tree is a small language;
  each mode visits the nodes it should on the inputs it should and answers what it
  should, token accounting balances, lossless trees lose nothing, sequences flatten, beam
  search returns the best.
- **Streamed tool calls** (`StreamedCalls`, `OpenAiMessages`, `OpenAiStreaming`,
  `StreamingLaws`, `AnthropicStreaming`, `StreamEndings`). What is reassembled does not
  depend on how the text was cut or interleaved, and every stream ends as it should.
- **Memory stores** (`Paths`, `MemoryScopes`, `ScopedStores`, `KeyValue`, `KeyValueLaws`,
  `KeyValueStores`, `Vectors`, `VectorStores`). What a key holds and until when, and when a
  swap happens, is exact; lazy expiry is eager expiry; both backends of each kind agree
  exactly when no two scopes share a file and no file lies on another's directory path;
  and search is an exact top-k.

`Wrappers`, `Lists`, `JsonValue`, `ToolCalls`, `Strings`, `StringOrder` and `Usage` are
shared. Loops and mutable objects of the source are methods with loops and classes here,
each proved to compute a specification function; the theorems are about those functions.
Asynchronous code is taken one step at a time; `asyncio.gather` is an ordered sequence of
outcomes. `dafny verify dfyconfig.toml` checks the whole project.

Properties that the code does not have in full are stated exactly:

- Token conservation fails when a `Fallback` catches an exception that a composite
  raised after one of its leaves had returned: that leaf's tokens are gone
  (`FallbackDropsPaidWork`). `RunBalances` gives the balance of every run,
  `FallbackFreeTreesConserve` and `LosslessTreesConserve` the trees that conserve in
  every world, `ConservesExactlyWhenLossless` and `FragileAttemptsLose` the trees that
  lose a bill in some world. A leaf that is known never to raise makes more trees
  lossless: an adapted callable returns every `Exception` it raises as a failed outcome,
  while an adapted agent does so for the `AgentError` family only and lets a builder's or
  a provider's own exception through (`AdaptedTreesConserve` is about trees in which no
  leaf raises).
- Splicing a nested sequence is visible when it is empty and last and cancellation is
  requested just then (`SplicingExactly`).
- `_inline_refs` reads a reference by the text after its last slash. A JSON pointer into
  a definition, or one with escapes, is replaced by something else
  (`ReadRightExactlyWhenPlain`, `PointerIntoADefinitionIsMisread`). A reference that does
  not start with `#/$defs/` is left in the result, where its definitions are gone
  (`ClosedExactlyWhenRefsLocal`, `OtherSpellingDangles`, `ForeignReferenceIsLeft`). What
  stands beside a reference is dropped with it: `CanonicalKeepsMeaning` allows only
  keywords there that assert nothing. The function also rewrites plain data, a `const` for
  example, that looks like a reference (`InliningExactlyWhenDataRefFree`), and does not
  terminate when the schema reaches a cycle of definitions
  (`InliningTerminatesIffAcyclic`).
- `_strip_null_from_optional` merges the one variant left with what stands beside
  `anyOf`, which can lose a constraint (`ConstraintBesideAnyOfIsLost`): exactly when the
  merge is not harmless (`MergeExactlyWhenHarmless`, `StripExactlyWhenHarmless`), or,
  for keywords that assert independently, when the two sides disagree on one
  (`MergeOfIndependentKeywords`).
- A stream wraps arguments that are not an object and fails on text that is not JSON,
  where the whole-message reader falls back to no arguments (`DecodersAgreeExactly`).
- A wire message of the tool role has no error flag: the provider can tell an error from a
  result by its payload only (`TrueAnswerOnWire`).
- `delete` reports True for a dead entry not yet evicted (`DeleteReportsLeftovers`).
- A beam that keeps no candidate of the first level, of width zero or of a negative
  width, raises (`BeamRaisesExactly`).
- A larger cache can run a tool more often: the smaller one drops a result early, runs
  the function again, and still holds that later result when the larger one's has expired
  and the function fails (`FiveCallsRunMore`). `LargerRunsLessExactly` says for which
  functions this cannot happen.
- Text recalled from memory does not reach the provider unless the recalling builder is
  the last of its chain, because a chain drops the system messages of every list but the
  last (`RecallBeforeTheEndIsLost`); `memory/context_builder.py` documents that it composes
  with chains.
- Two memory scopes can be stored in one file: pathlib starts over at an absolute id and
  drops empty components. `SharedExactly` says when, `SlashesMergeScopes` gives two
  pairs. An id can also continue below the file of another, which then stands where a
  directory is needed, so that writing fails (`InTheWayExactly`, `RefusedWrite`).
  `BackendsAgreeExactly` says what follows for the backends.
- `run_loop_stream` ends in `RunFailed` for the `AgentError` family only; a `ToolError`
  raised by a provider and a builder's foreign exception leave the stream without a
  terminal event, as they leave the run (`StreamRefinesRun` covers both).
- `_split_existing_summary` documents a summary as a message whose only content is a
  summary block; the code accepts any assistant message that contains one, and the
  model follows the code.

## Model

| member | source | states |
|---|---|---|
| Usage.TotalUsageMeaning | src/phronesis/agents/loop.py:527-546 | accumulating reports gives, field by field, the sum of the counts that were reported, absent exactly when none was |
| Usage.TotalUsageConcat | src/phronesis/agents/loop.py:527-546 | accumulating two batches is adding their totals: the addition is associative and None is its identity |
| Messages.AppendExchange | src/phronesis/agents/loop.py:210-239 | appending an assistant message with calls and the tool message answering exactly those ids in order keeps a history paired |
| Messages.SplitWellPaired | src/phronesis/context/compacting.py:283-321 | cutting a paired history anywhere but between a question and its answer leaves two paired histories |
| Translation.ConcatText | src/phronesis/providers/translation.py:124-135 | the loop joins the text of the blocks and nothing else |
| Translation.CollectMedia | src/phronesis/providers/translation.py:142-167 | the loop collects the image and document blocks in order |
| Translation.TranslateOne | src/phronesis/providers/translation.py:66-121 | one message becomes its wire form: one wire message, or one TOOL message for each result |
| Translation.TranslateHistory | src/phronesis/providers/translation.py:36-63 | the wire history is the concatenation of the wire forms |
| Translation.TranslationKeepsPairing | src/phronesis/providers/translation.py:58-121 | on the wire every assistant message with n calls is followed by exactly its n TOOL messages in order, and TOOL messages occur nowhere else |
| Translation.WirePairingReflects | src/phronesis/providers/translation.py:58-121 | and only then: for histories with one non-empty tool message per exchange, the wire is paired if and only if the history is |
| Translation.TranslationCarriesTools | src/phronesis/providers/translation.py:66-121 | every call and every result reaches the wire, in order, with its arguments or output |
| WireMeaning.PlainMessageOnWire | src/phronesis/providers/translation.py:66-167 | a system, user or assistant message is one wire message of its role that reads as its text and summaries in order, shows its images and documents in order under their kinds, and hints at caching when a text block does |
| WireMeaning.ResultsOnTheWire | src/phronesis/providers/translation.py:66-121 | each result is one wire message of the tool role with its own id and output and nothing else |
| WireMeaning.WireInOrder | src/phronesis/providers/translation.py:36-63 | what a message becomes stands between what the ones before and the ones after become |
| AgentLoop.AssistantMessageFromResponse | src/phronesis/agents/loop.py:353-369 | text first when there is any, then one tool use for each call, which are also the calls requested |
| AgentLoop.ExecuteCalls | src/phronesis/agents/loop.py:372-408 | all calls run; their results come back in call order, or the first crash among them is raised; what the results say is `AgentTranscripts.ResultsAreTrue` |
| AgentLoop.RunLoop | src/phronesis/agents/loop.py:161-257 | the loop over local variables computes the abstract run, for every provider, builder, tool and parser behaviour |
| AgentRuns.CallResultsExact | src/phronesis/agents/loop.py:372-408 | one result per call, in order, under its own id, exactly when no call crashes; otherwise the first crash is reported |
| AgentRuns.AssistantAsksForItsCalls | src/phronesis/agents/loop.py:353-369 | the assistant message asks for exactly the calls of the response, in order |
| AgentRuns.StepKeepsPairing | src/phronesis/agents/loop.py:192-239 | one iteration from a paired state leaves a paired history that extends what the provider was shown |
| AgentRuns.EveryIterationIsPaired | src/phronesis/agents/loop.py:192-239 | every state a run passes through is paired and extends the one before |
| AgentRuns.RunKeepsPairing | src/phronesis/agents/loop.py:192-239 | a completed run returns a paired history ending in a tool-free assistant message; exhausting the iterations leaves a paired one too |
| AgentRuns.ResultListsItsCalls | src/phronesis/agents/loop.py:212-229 | the calls a result lists are those its messages ask for, in order |
| AgentRuns.CallLogAccounts | src/phronesis/agents/loop.py:184-206 | each provider call sees the sum of everything reported before it, and every call after the first is made within both caps |
| AgentRuns.OutcomeAccounts | src/phronesis/agents/loop.py:184-206 | from any state, how a run ends in terms of its provider calls |
| AgentRuns.BudgetSafety | src/phronesis/agents/loop.py:184-206 | at most max_iterations provider calls; a run overshoots a cap by at most one response; a returned result is within the caps and counts every report |
| AgentTranscripts.ResultsAreTrue | src/phronesis/agents/loop.py:372-462 | each result carries the id of its call and what its tool returned, unflagged, or the error its tool raised, flagged, or for a name no tool has the tool_not_found error, flagged; there are results exactly when no call crashes |
| AgentTranscripts.TrueAnswerOnWire | src/phronesis/providers/translation.py:66-121 | such a tool message reaches the provider as one TOOL message for each call, under its id, with the output it deserves |
| AgentTranscripts.CostIsExact | src/phronesis/agents/loop.py:549-555 | a million times the cost is the sum of the four counters, each at its own rate; there is a cost exactly when there are rates |
| AgentTranscripts.BudgetIsExact | src/phronesis/agents/loop.py:557-600 | a run is stopped exactly when its tokens or its cost exceed the cap, with the cap and what was observed, tokens first |
| AgentTranscripts.IterationIsExplained | src/phronesis/agents/loop.py:184-239 | every iteration goes on with the message the provider sent and true results, or returns what the provider's text parses to, or fails for its own cause: builder, provider, tokens, cost, the first crash, or the parser |
| AgentTranscripts.RunReadsBack | src/phronesis/agents/loop.py:161-257 | from any state, the messages a run adds read back as its exchanges with the provider, as many as iterations, up to the output or to the iteration limit |
| AgentTranscripts.CompletedRunReadsBack | src/phronesis/agents/loop.py:161-257 | a completed run's messages are the conversation given or the system prompt, the user's input, and exchanges that read back: what the provider said to the conversation so far, the truth about every call, and at the end the text that was parsed to the output; the iteration limit is the request's unless that is zero |
| AgentTranscripts.CompletedRunIsPriced | src/phronesis/agents/loop.py:549-555 | the cost of a completed run is every counter reported to it, summed, at its own rate |
| AgentStream.StreamState.constructor | src/phronesis/agents/loop.py:603-616 | a fresh streaming state |
| AgentStream.AnnounceCalls | src/phronesis/agents/loop.py:727-734 | one ToolCallStarted for each requested call, in order |
| AgentStream.ReportResults | src/phronesis/agents/loop.py:738-744 | one ToolCallCompleted for each result, in order |
| AgentStream.ExecuteStreamStep | src/phronesis/agents/loop.py:666-746 | the step against the mutable state takes the same step as the loop, on success and on every failure, and yields the events of that step |
| AgentStream.RunLoopStream | src/phronesis/agents/loop.py:749-834 | the streaming program yields the specified stream |
| AgentStream.StreamRefinesRun | src/phronesis/agents/loop.py:749-834 | the stream ends in RunCompleted(r) exactly when the run returns r, in RunFailed(e) exactly when it raises the agent error e, a builder's included, and lets an exception escape exactly when the run does |
| AgentStream.ReadStep | src/phronesis/agents/loop.py:666-746 | a whole step is at most one text, n starts, then the same n ids completed in order; only a step cut short by an error may be truncated |
| AgentStream.StreamFollowsGrammar | src/phronesis/agents/loop.py:797-827 | every stream is RunStarted, whole steps, at most one step cut short, one terminal event |
| AgentStream.CompletedStreamTellsAll | src/phronesis/agents/loop.py:700-746 | for a completed run the started calls, the completions and the result's calls are one sequence, the completions carry exactly the results in the tool messages, outputs and error flags included, and the streamed text is what this run's assistant messages say |
| AgentTranscripts.EventsAreTrue | src/phronesis/agents/loop.py:700-746 | an iteration yields the text the provider sent, a start for each call with the id of its tool, and, when no call crashed, a completion for each with the output and the flag it deserves; nothing before the answer is within budget |
| Sessions.Session.constructor | src/phronesis/agents/session.py:50-61 | a session starts with no conversation |
| Sessions.Session.RunTurn | src/phronesis/agents/session.py:68-100 | a turn stores the messages of a completed run and nothing of a failed one |
| Sessions.Session.Reset | src/phronesis/agents/session.py:102-109 | a reset empties the conversation |
| Sessions.Drive | src/phronesis/agents/session.py:68-109 | any sequence of turns and resets leaves the session with the specified conversation |
| Sessions.SessionInvariant | src/phronesis/agents/session.py:91-109 | through any use, the conversation is paired and, once begun, ends in a tool-free assistant message |
| Sessions.SessionOnlyGrows | src/phronesis/agents/session.py:91-109 | between resets the conversation only grows by extension |
| Sessions.TurnExtends | src/phronesis/agents/session.py:91-100 | a completed turn extends the conversation by the user's input first |
| AgentContexts.EveryShownListIsPaired | src/phronesis/agents/loop.py:264-285 | in a run whose context builder is any of the shipped ones, recalling ones and nested chains included, every list shown to the provider is paired on the wire, in every iteration |
| AgentContexts.SessionsShowPairedLists | src/phronesis/agents/session.py:68-109 | the same in every turn of a session, whatever turns and resets came before |
| Compaction.SplitLeadingSystem | src/phronesis/context/compacting.py:218-236 | splits off the longest system prefix |
| Compaction.SplitExistingSummary | src/phronesis/context/compacting.py:239-258 | splits off the longest run of summary messages |
| Compaction.PriorSummaryCount | src/phronesis/context/compacting.py:268-280 | sums the original counts of the summary blocks |
| Compaction.HasMatchingToolUses | src/phronesis/context/compacting.py:324-335 | whether every needed id is asked for in the prefix |
| Compaction.AdjustSplitForToolPairs | src/phronesis/context/compacting.py:303-321 | moves the cut left to the specified point |
| Compaction.SplitPreservingPairs | src/phronesis/context/compacting.py:283-300 | cuts the conversation at the adjusted point |
| Compaction.AssembleMessages | src/phronesis/context/compacting.py:145-158 | system prefix or else the prompt, the one summary, the preserved tail, the new input |
| Compaction.Compacted | src/phronesis/context/compacting.py:110-158 | the compacting builder computes the specified message list or fails; when it compacts, and into what, is `CompactionChoices.CompactsExactly` |
| Compaction.ExtractQuery | src/phronesis/memory/context_builder.py:102-110 | the query is the text of the new input, else of the last user message |
| Compaction.Recall | src/phronesis/memory/context_builder.py:112-160 | recalled text goes before or after the system prompt, then the history and the new input |
| Compaction.BuildMessages | src/phronesis/context/default.py:31-52 | whichever builder it is computes the specified message list or fails |
| Compaction.BuildChain | src/phronesis/context/chain.py:62-83 | each builder is fed the output of the one before, without its system messages |
| CompactionChoices.HistoryDivides | src/phronesis/context/compacting.py:218-321 | every history divides into system messages, summaries, older messages and a kept tail, whose start moves left exactly while it would tear results from calls made after the summaries |
| CompactionChoices.DivisionIsUnique | src/phronesis/context/compacting.py:218-321 | in one way only |
| CompactionChoices.CompactsExactly | src/phronesis/context/compacting.py:110-200 | if the window is known and the history counts at least the threshold and older messages stand before the tail, the summaries and the older messages become one summary, whose text is what the builder's own compactor, or else the provider, answers on exactly these, and the build fails exactly when that answers nothing; otherwise the list is the prompt unless the history brings one, the whole history and the new input |
| CompactionChoices.NewSummaryExactlyWhenFull | src/phronesis/context/compacting.py:110-172 | a list that is built carries a new summary, and differs from the whole history, if and only if those conditions hold |
| CompactionChoices.DefaultShowsAll | src/phronesis/context/default.py:25-52 | the default builder shows the prompt unless the history brings one, the whole history and the new input |
| CompactionChoices.RecallsExactly | src/phronesis/memory/context_builder.py:102-160 | the query reads as the new input or else the last user message; what it recalls stands before or after the prompt, as configured, and the build fails exactly when recalling does |
| CompactionChoices.ChainRunsInStages | src/phronesis/context/chain.py:62-83 | a chain answers what the last of its stages answers, each on the messages of the one before that are not system messages, in order, up to the first that fails |
| CompactionLaws.CutRespectsPairs | src/phronesis/context/compacting.py:303-321 | on a paired conversation the cut moves by at most one and never separates a question from its answer |
| CompactionLaws.BuildKeepsPairing | src/phronesis/context/compacting.py:110-158 | on any paired history, with call ids reused or not, the list any builder returns is paired, however its chains are nested |
| CompactionLaws.ChainKeepsPairing | src/phronesis/context/chain.py:62-83 | so is the output of every stage of a chain |
| CompactionLaws.BuildPairedOnWire | src/phronesis/context/chain.py:62-83 | and what the provider receives from any builder is paired on the wire |
| CompactionLaws.BuildConservesWeight | src/phronesis/context/chain.py:62-83 | any builder, however its chains are nested, conserves the number of original messages its list stands for and leaves at most one summary, first after the system messages |
| CompactionLaws.OneConservesWeight | src/phronesis/context/compacting.py:124-158 | a builder that is not a chain conserves that number, and compacting leaves exactly one summary |
| CompactionLaws.ChainConservesWeight | src/phronesis/context/chain.py:71-83 | every stage of a chain conserves that number |
| CompactionLaws.RecallBeforeTheEndIsLost | src/phronesis/context/chain.py:71-83 | what a recalling builder injects before the end of a chain never reaches the provider: unless its memory fails, a default builder in its place gives the same list |
| CompactionLaws.SummaryFreeWeight | src/phronesis/context/compacting.py:268-280 | from a summary-free start the weight is the number of non-system messages |
| CompactionLaws.CompactionBoundsSize | src/phronesis/context/compacting.py:283-321 | compacting with preserve_recent >= 1 keeps the last preserve_recent messages verbatim, or one more |
| Schema.ResolveLeavesNoRefs | src/phronesis/tools/schema.py:113-132 | inlining leaves nothing it would replace, in subschemas and in data: no object with a $ref that starts with #/$defs/ |
| Schema.ResolveRefFree | src/phronesis/tools/schema.py:113-132 | a schema with nothing to inline passes through unchanged |
| Schema.DepthIrrelevant | src/phronesis/tools/schema.py:113-132 | the recursion bound does not affect the result |
| Schema.InliningTerminatesIffAcyclic | src/phronesis/tools/schema.py:107-132 | resolving a schema terminates if and only if no walk along the references it reaches comes back to a definition it has been through |
| Schema.AcyclicUnfolds | src/phronesis/tools/schema.py:107-132 | where no walk comes back, as many expansions as there are definitions suffice |
| Schema.UnreachedCycleIsHarmless | src/phronesis/tools/schema.py:107-132 | a cycle of definitions the schema does not refer to does not matter: a concrete one |
| SchemaPointers.ReadingsAgreeExactlyOnPlainRefs | src/phronesis/tools/schema.py:117-118 | a reference into the definitions, however it is spelled, denotes what the inliner puts in its place, in all definitions, if and only if it starts with #/$defs/ and goes on with one key and nothing to unescape |
| SchemaPointers.SimpleNamesArePlain | src/phronesis/tools/schema.py:117-118 | a definition name without a slash, tilde or percent sign makes such a reference |
| SchemaInlining.ResolveKeepsMeaning | src/phronesis/tools/schema.py:113-132 | the resolved schema accepts on its own exactly what the original accepts in its document, for plain references that name definitions with nothing asserted beside them |
| SchemaMeaning.AcceptsAlike | src/phronesis/tools/schema.py:113-132 | readings that agree on every reference met give a schema the same meaning |
| SchemaInlining.InliningKeepsMeaning | src/phronesis/tools/schema.py:107-132 | the inlined schema has no $ref left where a schema stands and accepts exactly what the schema accepts with its references followed as JSON pointers through the whole document (RFC 6901, section 6), when every reference met is plain and names a definition |
| SchemaInlining.ClosedExactlyWhenRefsLocal | src/phronesis/tools/schema.py:113-132 | inlining leaves no $ref where a schema stands if and only if every reference it meets starts with #/$defs/ |
| SchemaInlining.InliningExactlyWhenDataRefFree | src/phronesis/tools/schema.py:113-132 | when every reference met is plain and names a definition, inlining keeps the meaning under every interpretation of the keywords if and only if no plain data it meets looks like a reference |
| SchemaInlining.ReferenceLikeConstIsRewritten | src/phronesis/tools/schema.py:113-132 | a const holding an object with a $ref member is rewritten: the condition is needed |
| SchemaReferences.ReadRightExactlyWhenPlain | src/phronesis/tools/schema.py:117-120 | inlining a reference into the definitions, however it is spelled, keeps its meaning, in all definitions in which it resolves, if and only if it is plain |
| SchemaReferences.OtherSpellingDangles | src/phronesis/tools/schema.py:107-120 | #/%24defs/A denotes the definition A, is left as it stands, and accepts nothing once the definitions are gone: a concrete schema |
| SchemaReferences.ForeignReferenceIsLeft | src/phronesis/tools/schema.py:113-120 | a reference to an anchor or another document is left as it stands, whatever it denotes |
| SchemaReferences.PointerIntoADefinitionIsMisread | src/phronesis/tools/schema.py:117-120 | a pointer into a definition is replaced by another definition: a concrete one |
| SchemaNulls.NonNullVariants | src/phronesis/tools/schema.py:135-160 | keeps the variants whose type is not null, in order |
| SchemaNulls.StripNullFromOptional | src/phronesis/tools/schema.py:135-160 | the in-place loop over the properties computes the specified rewrite, in whatever order it visits them; that null is gone is `NullRemoval.NullIsRemoved` |
| SchemaNulls.StripPropertyMeaning | src/phronesis/tools/schema.py:135-160 | a rewritten property accepts a non-null instance exactly when the original does: several variants left, none left, or a harmless merge, whatever variants the one left has of its own |
| SchemaNulls.StripKeepsMeaning | src/phronesis/tools/schema.py:135-160 | an object with no null in an optional property is accepted by the rewritten schema exactly when the original accepts it |
| NullRemoval.NullIsRemoved | src/phronesis/tools/schema.py:135-160 | exactly the optional properties that offer null change: the variants that are not null-typed are left, all and in order; as the list of anyOf, every other keyword unchanged, unless one is left, which then replaces anyOf under what stood beside it; required properties and everything outside the properties are untouched |
| NullRemoval.PropertiesAreListed | src/phronesis/tools/schema.py:136-137 | which properties there are and which are required |
| NullRemoval.NullNeedsAVariant | src/phronesis/tools/schema.py:145-160 | under every lawful interpretation a rewritten property accepts null if and only if what stood beside anyOf does and a variant that is not null-typed does, merges being harmless |
| SchemaMerges.MergeExactlyWhenHarmless | src/phronesis/tools/schema.py:153-156 | a merge keeps the meaning under every lawful interpretation if and only if it is harmless: one side is annotations, both sides are equal up to annotations, or what stands beside accepts only null |
| SchemaMerges.StripExactlyWhenHarmless | src/phronesis/tools/schema.py:135-160 | null removal keeps the meaning of a whole schema without anyOf under every lawful interpretation if and only if all its merges are harmless, or it accepts only null anyhow |
| SchemaMerges.MergeOfIndependentKeywords | src/phronesis/tools/schema.py:153-156 | under interpretations that read each keyword on its own, if and only if the keywords on both sides agree, or what stands beside accepts only null |
| CanonicalSchema.Canonicalize | src/phronesis/tools/schema.py:211-216 | inlining, then null removal |
| CanonicalSchema.CanonicalKeepsMeaning | src/phronesis/tools/schema.py:211-216 | the two rewrites together keep the meaning, references followed as JSON pointers through the whole document, and leave no $ref where a schema stands, when every reference met is plain and names a definition |
| CanonicalSchema.MissingDefinitionAcceptsAll | src/phronesis/tools/schema.py:117-120 | a reference to a definition that is missing accepts every instance once inlined |
| CanonicalSchema.Draft7IsLawful | src/phronesis/tools/schema.py:135-160 | a concrete reading of the common draft-07 keywords meets every assumption of the null-removal theorem |
| CanonicalSchema.ConstraintBesideAnyOfIsLost | src/phronesis/tools/schema.py:135-160 | with a constraint beside anyOf the merge can lose a variant's own constraint: the annotation condition is needed |
| ToolCache.Cache.constructor | src/phronesis/tools/cache.py:95-98 | an empty store |
| ToolCache.Cache.Get | src/phronesis/tools/cache.py:99-118 | a live entry is a hit and becomes most recent; an expired one is dropped |
| ToolCache.Cache.Set | src/phronesis/tools/cache.py:120-134 | the entry becomes most recent and the oldest entries go until the size fits |
| ToolCache.Cache.Clear | src/phronesis/tools/cache.py:136-138 | an empty store |
| ToolCache.StoreValid | src/phronesis/tools/cache.py:99-134 | through any trace the keys stay distinct and no more than the size allows |
| ToolCache.CachePolicy.Make | src/phronesis/tools/cache.py:42-47 | negative sizes and lifetimes count as zero, others are kept, and only a positive size enables the cache |
| CacheLaws.GetIncluded | src/phronesis/tools/cache.py:99-118 | a get keeps the small store included in the large one, and a hit of the small one is a hit of the large one |
| CacheLaws.SetIncluded | src/phronesis/tools/cache.py:120-134 | a set keeps the inclusion: once the large store must evict, so must the small one |
| CacheLaws.StoresIncluded | src/phronesis/tools/cache.py:99-134 | on one trace the small store is a subsequence of the large one and at most n - m shorter |
| CacheLaws.LargerCacheHitsMore | src/phronesis/tools/cache.py:99-134 | every hit of a cache of size m is a hit with the same value in a cache of size n >= m, whatever the clock does |
| CacheLaws.RecencyIsByLatestTouch | src/phronesis/tools/cache.py:99-134 | the recency order lists each touched key once, by its latest touch |
| CacheLaws.ExactRecency | src/phronesis/tools/cache.py:99-134 | without ttl the store is, at every moment, the max_size most recently touched distinct keys in that order |
| CacheLaws.HitIsTheLastPut | src/phronesis/tools/cache.py:99-134 | a hit is the value last put under its key, less than a lifetime ago and with no clear since; a stored key misses only when its lifetime is over |
| CachedTools.CachedTool.constructor | src/phronesis/tools/tool.py:57-107 | a cache exists exactly when the policy enables it |
| CachedTools.CachedTool.Invoke | src/phronesis/tools/tool.py:129-201 | a hit returns the stored value; a miss runs the function and stores a success |
| CachedTools.AgreeingKeysAreTransparent | src/phronesis/tools/tool.py:165-201 | when calls that share a key share a successful outcome, the cache is invisible at any size, ttl and clock |
| CachedTools.TransparentExactlyWhenKeysAgree | src/phronesis/tools/tool.py:165-201 | an enabled cache, with or without a ttl, is invisible whatever the clock reads if and only if such calls agree |
| CachedTools.InjectiveKeysAgree | src/phronesis/tools/tool.py:181-201 | a deterministic function that ignores its context, under injective keys, qualifies |
| CachedToolLaws.TransparentOnTimeExactly | src/phronesis/tools/tool.py:165-201 | with a clock that does not go back, if and only if such calls agree or the ttl is zero |
| CachedToolLaws.LargerCacheRunsLess | src/phronesis/tools/tool.py:165-201 | without a ttl every call that hits behind a smaller cache hits behind a larger one, so the larger one runs the function no more often |
| CachedToolRuns.FatedKeysRunLess | src/phronesis/tools/tool.py:165-201 | with a ttl, where each key always succeeds or always fails, the larger cache runs the function no more often under any key, while the clock does not go back |
| CachedToolRuns.LargerRunsLessExactly | src/phronesis/tools/tool.py:165-201 | over all sizes, lifetimes and calls whose clock does not go back, the larger cache never runs the function more often if and only if no key both succeeds and fails while another one succeeds |
| CachedToolRuns.FiveCallsRunMore | src/phronesis/tools/tool.py:165-201 | for such a key, five calls after which the larger cache has run the function four times and the smaller one three times |
| Modes.MergeChildren | src/phronesis/runtime/outcome.py:121-147 | the loop folds the children's tokens and cost into the outcome |
| Modes.RunNode | src/phronesis/runtime/modes/conditional.py:31-41 | running a tree computes its meaning; a Conditional passes its branch's outcome through |
| Modes.RunSequence | src/phronesis/runtime/modes/sequence.py:32-59 | the loop polls cancellation, threads outputs and stops at the first failure, as specified |
| Modes.RunLoop | src/phronesis/runtime/modes/loop.py:33-80 | the bounded loop, its exits and their outputs |
| Modes.RunFallback | src/phronesis/runtime/modes/fallback.py:27-50 | each attempt in turn, a raised exception becoming a bare failed outcome |
| Modes.RunSupervisor | src/phronesis/runtime/modes/supervisor.py:51-113 | dispatcher and worker rounds with every failure exit; what they answer is `ModeStories.SupervisorTells` |
| Modes.RunHandoffChain | src/phronesis/runtime/modes/handoff_chain.py:48-100 | hops by name until no target, an unknown name or the limit |
| Modes.ExpandBeam | src/phronesis/runtime/modes/tree_search.py:53-77 | the candidates of a beam, or the run's end |
| Modes.ScoreCandidates | src/phronesis/runtime/modes/tree_search.py:79-107 | the scored candidates in order, or the run's end |
| Modes.RunTreeSearch | src/phronesis/runtime/modes/tree_search.py:109-151 | the search loop with its in-place sort, cut, best and exits |
| ModeStories.SequenceTells | src/phronesis/runtime/modes/sequence.py:32-59 | its nodes are visited in order, each on what the one before gave; the last one's output, the failing one's, or a cancellation is the answer, with the children in order |
| ModeStories.LoopTells | src/phronesis/runtime/modes/loop.py:33-80 | its body is visited on what it gave last while until says so; the first output until rejects is the answer, exhaustion returns the last output |
| ModeStories.FallbackTells | src/phronesis/runtime/modes/fallback.py:27-50 | its attempts are visited in order on the same input; the first success is the answer, everything before it failed, and with none the error is the last attempt's |
| ModeStories.SupervisorTells | src/phronesis/runtime/modes/supervisor.py:51-113 | dispatcher and routed worker are visited by turns, each on what the other gave; the first dispatcher output without a route is the answer, exhaustion returns the last worker's output, and every failing exit has its error |
| ModeStories.HandoffTells | src/phronesis/runtime/modes/handoff_chain.py:48-100 | agents are visited by name, the initial one and then the one each output names, each on what the one before gave; the first output that names none is the answer, an unknown name or one hop too many the error |
| ModeStories.ModeTellsItsStory | src/phronesis/runtime/modes/conditional.py:31-41 | every mode tells such a story: the visits run one after the other, they are all the leaf executions made, and their outcomes are the children; a conditional is the branch its test picks |
| ModeStories.SuccessIsTheLastChild | src/phronesis/runtime/modes/supervisor.py:75-81 | a loop, fallback, supervisor or handoff chain that succeeds hands on its last child's output: rejected by until, a first success, a dispatcher's without a route, an agent's without a target |
| TreeStories.SearchTellsItsStory | src/phronesis/runtime/modes/tree_search.py:20-151 | level by level, the whole beam is expanded, all candidates offered are scored in order, the front of their stable ranking is kept, as many as the width says, and is the next beam; the answer is the first best of all that was kept, and every other exit has its error |
| Conservation.PlusLaws | src/phronesis/runtime/outcome.py:25-40 | optional addition of tokens and cost is associative and commutative with None as identity |
| Conservation.ExecAccounted | src/phronesis/runtime/outcome.py:121-147 | for any tree: every leaf execution is logged once, and the root's bill plus the bill of what was lost is the bill of the log |
| Conservation.SequenceAccounted | src/phronesis/runtime/modes/sequence.py:32-59 | the balance over a sequence, on success, failure, cancellation and a raised exception |
| Conservation.LoopAccounted | src/phronesis/runtime/modes/loop.py:33-80 | the balance over a loop |
| Conservation.FallbackAccounted | src/phronesis/runtime/modes/fallback.py:27-50 | the balance over a fallback, caught exceptions included |
| Conservation.SupervisorAccounted | src/phronesis/runtime/modes/supervisor.py:51-113 | the balance over a supervisor, on every structured failure exit |
| Conservation.HandoffAccounted | src/phronesis/runtime/modes/handoff_chain.py:48-100 | the balance over a handoff chain |
| Conservation.TreeAccounted | src/phronesis/runtime/modes/tree_search.py:53-151 | the balance over a tree search |
| Conservation.RunBalances | src/phronesis/runtime/outcome.py:121-147 | the exact balance of any run that yields an outcome |
| Exceptions.QuietReturns | src/phronesis/runtime/modes/fallback.py:31-50 | a tree that is quiet on an input never raises on it: read off the tree, the input and the leaves known never to raise |
| Exceptions.AtomicRaisesFirst | src/phronesis/runtime/modes/fallback.py:32-35 | a tree that is atomic on an input raises there, if at all, before any of its leaves has returned |
| Conservation.FallbackFreeTreesConserve | src/phronesis/runtime/outcome.py:121-147 | a tree without Fallback conserves in every world, whatever its leaves raise and whatever its beam widths: any outcome it returns carries the sum over all leaf executions |
| Conservation.LosslessTreesConserve | src/phronesis/runtime/outcome.py:121-147 | so does, on any input, a tree whose Fallbacks only try attempts that are atomic on what they are given |
| Losses.ConservesExactlyWhenLossless | src/phronesis/runtime/modes/fallback.py:32-50 | on any input, a tree of leaves, non-empty sequences, fallbacks and conditionals conserves in every world if and only if it is lossless there |
| Losses.FragileAttemptsLose | src/phronesis/runtime/modes/fallback.py:32-50 | a loop, supervisor, handoff chain or tree search that goes on from a node it paid for to one that can raise makes the Fallback that tries it first lose a bill in some world |
| Conservation.AdaptedTreesConserve | src/phronesis/runtime/outcome.py:121-147 | when no leaf raises and every beam is at least one wide, every tree returns an outcome whose tokens and cost are the sum over all leaf executions |
| Conservation.ConservedExactlyWhenNothingLost | src/phronesis/runtime/modes/fallback.py:32-35 | when leaves report positive input, the root's bill is complete if and only if no Fallback swallowed an exception raised after a leaf had returned |
| Conservation.FallbackDropsPaidWork | src/phronesis/runtime/modes/fallback.py:32-35 | a concrete run in which a Fallback drops the tokens of a leaf that returned |
| SequenceLaws.SequenceIsThread | src/phronesis/runtime/modes/sequence.py:32-59 | what a caller sees of a sequence is the composition of its nodes |
| SequenceLaws.FlatIsFlat | src/phronesis/runtime/modes/sequence.py:32-59 | flattening removes every nested non-empty sequence, at every depth |
| SequenceLaws.FlatteningPreservesMeaning | src/phronesis/runtime/modes/sequence.py:32-59 | flattening preserves output, success, error, tokens, cost and every leaf call, for every input, failing position and cancellation point |
| SequenceLaws.SplicingExactly | src/phronesis/runtime/modes/sequence.py:32-59 | splicing one nested sequence is invisible if and only if it is not empty, or something follows it, or what precedes it fails, or cancellation is not requested at that point |
| Ranking.RankIsStable | src/phronesis/runtime/modes/tree_search.py:133-134 | the ranking is descending, keeps each group of ties in order and is a permutation |
| Ranking.StableRankingUnique | src/phronesis/runtime/modes/tree_search.py:133-134 | there is only one such ranking |
| Ranking.CutKeepsBest | src/phronesis/runtime/modes/tree_search.py:134 | nothing cut off a ranking outscores what is kept |
| TreeSearchLaws.SearchReturnsFirstBest | src/phronesis/runtime/modes/tree_search.py:115-151 | a successful search with beam_width >= 1 returns the earliest of the best candidates it ever scored, with its score |
| TreeSearchLaws.EvaluationsBounded | src/phronesis/runtime/modes/tree_search.py:115-139 | with branching at most b, at most b + (max_depth - 1) * beam_width * b evaluator runs |
| TreeSearchLaws.TreeCovers | src/phronesis/runtime/modes/tree_search.py:53-139 | a beam as wide as every level scores exactly the nodes of the whole tree |
| TreeSearchLaws.WideBeamFindsOptimum | src/phronesis/runtime/modes/tree_search.py:109-151 | such a search returns the maximum over the whole tree down to max_depth, and fails exactly when the root has no candidates |
| TreeSearchLaws.BeamRaisesExactly | src/phronesis/runtime/modes/tree_search.py:134-137 | when expander and evaluator never fail the search raises IndexError if and only if the root has candidates and the width, zero or negative, keeps none of them; otherwise it returns |
| OpenAiMessages.MessageRoundTrip | src/phronesis/providers/openai/messages.py:37-60 | a printed assistant message reads back as it was, when its arguments survive printing and loading |
| OpenAiMessages.CallsReadInOrder | src/phronesis/providers/openai/messages.py:125-163 | any list of entries reads as the calls of those that have a name, in order, with the arguments an object or a text denotes, and none otherwise |
| OpenAiMessages.DecodersAgreeExactly | src/phronesis/providers/openai/messages.py:148-163 | the stream decodes an argument text as the whole-message reader does if and only if it is empty or denotes an object |
| OpenAiStreaming.SortedAscends | src/phronesis/providers/openai/streaming.py:248 | buffers are flushed in ascending index order, each once |
| OpenAiStreaming.ToolBuffers.constructor | src/phronesis/providers/openai/streaming.py:119 | no buffers at first |
| OpenAiStreaming.ToolBuffers.Backfill | src/phronesis/providers/openai/streaming.py:236-242 | an empty id or name is filled in, a given one kept |
| OpenAiStreaming.ToolBuffers.Absorb | src/phronesis/providers/openai/streaming.py:199-233 | a fragment opens or extends the buffer of its index and announces a new call |
| OpenAiStreaming.ToolBuffers.Flush | src/phronesis/providers/openai/streaming.py:245-266 | the ends in index order and an empty dictionary, or the first call that does not decode |
| OpenAiStreaming.ProcessChoice | src/phronesis/providers/openai/streaming.py:172-196 | the text, then the announcements, of one choice |
| OpenAiStreaming.TranslateChunks | src/phronesis/providers/openai/streaming.py:116-149 | the translator yields the specified chunks |
| StreamingLaws.BufferIsSummary | src/phronesis/providers/openai/streaming.py:199-242 | a buffer exists for exactly the indices addressed and holds the first id, the first name and all argument parts of its own fragments |
| StreamingLaws.TranslationViews | src/phronesis/providers/openai/streaming.py:116-149 | the text, the announcements and the ends of any stream, in terms of its fragments |
| StreamingLaws.CutsAndInterleavingsAgree | src/phronesis/providers/openai/streaming.py:116-266 | two streams whose indices received the same first id and argument text, however cut and interleaved, end the same calls with the same arguments in the same order, or fail on the same call |
| StreamingLaws.InterleavingIsFree | src/phronesis/providers/openai/streaming.py:199-233 | neighbouring fragments of different calls may trade places |
| StreamingLaws.CuttingIsFree | src/phronesis/providers/openai/streaming.py:228-231 | a fragment may be cut in two anywhere in its argument text |
| StreamingLaws.PrintedMessageReassembles | src/phronesis/providers/openai/streaming.py:116-266 | any fragmentation of a printed message yields its text and its calls' ids and arguments in order, as reading the whole message does |
| StreamingLaws.WholeMessageIsFragments | src/phronesis/providers/openai/messages.py:95-122 | the printed message in one chunk is such a fragmentation |
| StreamingLaws.PrintedCallsAreAnnounced | src/phronesis/providers/openai/streaming.py:218-224 | each call of a printed message is announced exactly once, by its id and name |
| StreamEndings.OpenAiEndsExactly | src/phronesis/providers/openai/streaming.py:116-266 | a stream fails on the first call, by index, whose text cannot be read; otherwise every call ends, by index, under its first id with what its text reads as, and the stream finishes once, last, with the last reason and the last usage reported, if it had choices or usage at all |
| AnthropicStreaming.ToolBuffers.constructor | src/phronesis/providers/anthropic/streaming.py:126 | no buffers at first |
| AnthropicStreaming.ToolBuffers.HandleBlockStart | src/phronesis/providers/anthropic/streaming.py:168-185 | a tool_use block opens a buffer and is announced |
| AnthropicStreaming.ToolBuffers.HandleBlockDelta | src/phronesis/providers/anthropic/streaming.py:188-215 | text is yielded, an argument fragment goes to the open buffer of its block |
| AnthropicStreaming.ToolBuffers.HandleBlockStop | src/phronesis/providers/anthropic/streaming.py:218-244 | the buffer is closed and its call ends, or does not decode |
| AnthropicStreaming.TranslateEvents | src/phronesis/providers/anthropic/streaming.py:122-154 | the translator yields the specified chunks and ends as specified |
| AnthropicStreaming.BlocksAreIndependent | src/phronesis/providers/anthropic/streaming.py:168-244 | while the stream runs, each buffer is a function of its own block's events |
| AnthropicStreaming.StopFindsWholeCall | src/phronesis/providers/anthropic/streaming.py:218-244 | when a printed call's block stops its buffer decodes to the call's arguments |
| AnthropicStreaming.PrintedMessageReassembles | src/phronesis/providers/anthropic/streaming.py:122-244 | however the blocks of a message are cut and interleaved, the stream yields its text and ends each call, as its block stops, with its own id and arguments |
| StreamEndings.AnthropicEndsExactly | src/phronesis/providers/anthropic/streaming.py:122-287 | a stream is read up to the first error, end of message or block that cannot be read, which says how it ends; each event yields what it is about and nothing else, the finish the last reason and each counter as last reported |
| KeyValue.StepSimulates | src/phronesis/memory/kv/in_memory.py:45-175 | after any operation the live entries are those of the eager map, and the answers agree, delete apart |
| KeyValue.DeleteReportsLeftovers | src/phronesis/memory/kv/in_memory.py:87-99 | delete agrees with the eager map if and only if the key is not a dead entry not yet evicted |
| KeyValue.LazyExpiryIsEager | src/phronesis/memory/kv/in_memory.py:45-175 | over any trace whose clock does not go back, lazy expiry answers as a map whose entries vanish at their expiry instant |
| KeyValueLaws.EqualityByKind | src/phronesis/memory/kv/in_memory.py:131 | a number or a bool equals exactly what stands for the same number, lists and dictionaries what has equal elements in the same places, anything else only itself |
| KeyValueLaws.EqualityIsReflexive | src/phronesis/memory/kv/in_memory.py:131 | every value equals itself |
| KeyValueLaws.EqualityIsSymmetric | src/phronesis/memory/kv/in_memory.py:131 | equality does not depend on the order of its sides |
| KeyValueLaws.EqualityIsTransitive | src/phronesis/memory/kv/in_memory.py:131 | values equal to the same one are equal |
| KeyValueLaws.NumberFreeEquality | src/phronesis/memory/kv/in_memory.py:131 | without numbers and bools inside, only the same value is equal |
| KeyValueLaws.StepLeaves | src/phronesis/memory/kv/in_memory.py:45-175 | what any operation leaves under any key at any later moment: a set value until, and not at, its instant; a swap its replacement exactly when what the key holds equals what was expected; an append the list one longer, with its old lifetime; an increment the sum, bools counting as numbers |
| KeyValueLaws.StepTells | src/phronesis/memory/kv/in_memory.py:51-175 | what any operation answers, in terms of what the keys hold at that moment; keys are listed in dictionary order |
| KeyValueLaws.SetIsReadUntilExpiry | src/phronesis/memory/kv/in_memory.py:45-85 | a value set is read by every later get until, and only until, its lifetime is over, whatever calls come between, as long as none writes its key |
| KeyValueLaws.OneWriterWins | src/phronesis/memory/kv/in_memory.py:116-136 | of two swaps that expect the same, the second fails when the first one's replacement does not equal that and nothing else wrote the key, and the first one's value stays |
| KeyValueStores.InMemoryKeyValueStore.constructor | src/phronesis/memory/kv/in_memory.py:29-33 | an empty store |
| KeyValueStores.InMemoryKeyValueStore.Get | src/phronesis/memory/kv/in_memory.py:51-71 | takes the lazy step of the specification on its scope and leaves the other scopes alone |
| KeyValueStores.InMemoryKeyValueStore.Set | src/phronesis/memory/kv/in_memory.py:73-85 | takes the lazy step of the specification on its scope and leaves the other scopes alone |
| KeyValueStores.InMemoryKeyValueStore.Delete | src/phronesis/memory/kv/in_memory.py:87-99 | takes the lazy step of the specification on its scope and leaves the other scopes alone |
| KeyValueStores.InMemoryKeyValueStore.ListKeys | src/phronesis/memory/kv/in_memory.py:101-114 | takes the lazy step of the specification on its scope and leaves the other scopes alone |
| KeyValueStores.InMemoryKeyValueStore.CompareAndSwap | src/phronesis/memory/kv/in_memory.py:116-136 | takes the lazy step of the specification on its scope and leaves the other scopes alone; when a swap happens is `KeyValueLaws.StepTells` |
| KeyValueStores.InMemoryKeyValueStore.Append | src/phronesis/memory/kv/in_memory.py:138-156 | takes the lazy step of the specification on its scope and leaves the other scopes alone |
| KeyValueStores.InMemoryKeyValueStore.Increment | src/phronesis/memory/kv/in_memory.py:158-175 | takes the lazy step of the specification on its scope and leaves the other scopes alone |
| KeyValueStores.InMemoryKeyValueStore.Replay | src/phronesis/memory/kv/in_memory.py:51-175 | every trace of calls answers as specified |
| MemoryScopes.SharedExactly | src/phronesis/memory/kv/filesystem.py:51-57 | two scopes are stored in one file if and only if their ids are relative, their levels equal and their ids equal up to components pathlib drops, or an absolute id leads to the same path |
| MemoryScopes.PlainScopesFile | src/phronesis/memory/kv/filesystem.py:51-57 | the file of every scope with a plain id: its level under the root, its id and the extension |
| MemoryScopes.SlashFreeScopesAreSeparate | src/phronesis/memory/kv/filesystem.py:51-57 | ids without a slash never share a file, nor does one's file lie on another's directory path |
| MemoryScopes.SlashesMergeScopes | src/phronesis/memory/kv/filesystem.py:51-57 | ids with slashes can: /x at two levels, and a//b and a/./b with a/b |
| KeyValueStores.FilesystemJSONKeyValueStore.Load | src/phronesis/memory/kv/filesystem.py:59-80 | what the file of the scope holds, nothing when there is none; fails on a directory |
| MemoryScopes.InTheWayExactly | src/phronesis/memory/kv/filesystem.py:51-57 | among relative ids, one scope's file lies on the directory path of another's if and only if the levels are equal and the file name of the one, extension included, leads into the id of the other |
| ScopedStores.RefusedWrite | src/phronesis/memory/kv/filesystem.py:82-101 | with ids a and a.json/b the second write fails on disk and not in memory: a concrete trace |
| ScopedStores.StaysTree | src/phronesis/memory/kv/filesystem.py:82-101 | no call leaves two files one of which lies on the directory path of the other |
| ScopedStores.RefusedCallsChangeNothing | src/phronesis/memory/kv/filesystem.py:59-101 | a refused call leaves no trace: the others are answered as if it had not been made |
| ScopedStores.DiskIsInvisible | src/phronesis/memory/kv/filesystem.py:51-101 | working on files instead of scopes changes no answer when no two scopes share a file and no file is in another's way |
| ScopedStores.AgreeExactly | src/phronesis/memory/kv/filesystem.py:51-101 | for any store that can tell a write from none, memory and disk agree on all traces over some scopes if and only if that holds |
| KeyValueStores.FilesystemJSONKeyValueStore.Dump | src/phronesis/memory/kv/filesystem.py:82-101 | replaces the file of the scope, which is that of every scope sharing it, and no other; fails where a file stands for a directory or a directory for the file |
| KeyValueStores.FilesystemJSONKeyValueStore.Get | src/phronesis/memory/kv/filesystem.py:111-128 | takes the same step on the scope's file over load, edit and dump and leaves every other file alone, or fails as the disk does and changes nothing |
| KeyValueStores.FilesystemJSONKeyValueStore.Set | src/phronesis/memory/kv/filesystem.py:130-144 | takes the same step on the scope's file over load, edit and dump and leaves every other file alone, or fails as the disk does and changes nothing |
| KeyValueStores.FilesystemJSONKeyValueStore.Delete | src/phronesis/memory/kv/filesystem.py:146-159 | takes the same step on the scope's file over load, edit and dump and leaves every other file alone, or fails as the disk does and changes nothing |
| KeyValueStores.FilesystemJSONKeyValueStore.ListKeys | src/phronesis/memory/kv/filesystem.py:161-182 | takes the same step on the scope's file over load, edit and dump and leaves every other file alone, or fails as the disk does and changes nothing |
| KeyValueStores.FilesystemJSONKeyValueStore.CompareAndSwap | src/phronesis/memory/kv/filesystem.py:184-205 | takes the same step on the scope's file over load, edit and dump and leaves every other file alone, or fails as the disk does and changes nothing; when a swap happens is `KeyValueLaws.StepTells` |
| KeyValueStores.FilesystemJSONKeyValueStore.Append | src/phronesis/memory/kv/filesystem.py:207-227 | takes the same step on the scope's file over load, edit and dump and leaves every other file alone, or fails as the disk does and changes nothing |
| KeyValueStores.FilesystemJSONKeyValueStore.Increment | src/phronesis/memory/kv/filesystem.py:229-247 | takes the same step on the scope's file over load, edit and dump and leaves every other file alone, or fails as the disk does and changes nothing |
| KeyValueStores.Survivors | src/phronesis/memory/kv/filesystem.py:166-175 | the loop keeps the live entries and the live keys under the prefix |
| KeyValueStores.FilesystemJSONKeyValueStore.Replay | src/phronesis/memory/kv/filesystem.py:111-247 | every trace of calls answers or fails as specified, each scope in the place of its file |
| KeyValueStores.BackendsAgreeExactly | src/phronesis/memory/kv/filesystem.py:51-101 | the two backends give equal answers on all traces over some scopes if and only if no two of these scopes share a file and no file lies on another's directory path |
| KeyValueStores.ReplayBoth | src/phronesis/memory/kv/filesystem.py:111-247 | on every trace the in-memory backend answers as eager maps do, up to delete's leftovers, and so does the filesystem one on the calls the disk does not refuse; they give equal answers when no two scopes share a file and no file is in another's way, in particular when no id has a slash |
| Vectors.CosineSimilarity | src/phronesis/memory/vector/_cosine.py:11-34 | the loop computes the cosine, zero for mismatched lengths and negligible vectors |
| Vectors.CauchySchwarz | src/phronesis/memory/vector/_cosine.py:22-29 | dot * dot <= norm_a * norm_b for all vectors of equal length |
| Vectors.CosineIsBounded | src/phronesis/memory/vector/_cosine.py:11-34 | the cosine lies in [-1, 1] |
| Vectors.SelfSimilarity | src/phronesis/memory/vector/_cosine.py:31-34 | a vector of non-negligible length has similarity one with itself |
| Vectors.CosineIsSymmetric | src/phronesis/memory/vector/_cosine.py:11-34 | similarity does not depend on the order of its arguments |
| Vectors.DotByParts | src/phronesis/memory/vector/_cosine.py:22-29 | the dot product adds up the products, coordinate by coordinate |
| Vectors.CosineMeaning | src/phronesis/memory/vector/_cosine.py:11-34 | the cosine times both lengths is the dot product; zero for vectors of different lengths or a negligible one |
| Vectors.SearchBucket | src/phronesis/memory/vector/in_memory.py:64-77 | the search loop, filter, sort and cut compute the specified hits |
| Vectors.EligibleInOrder | src/phronesis/memory/vector/in_memory.py:64-74 | the scored items are those that reach min_score, in insertion order, each with its own cosine |
| Vectors.SearchIsExactTopK | src/phronesis/memory/vector/in_memory.py:50-77 | exactly min(k, eligible) hits: sorted, ties in insertion order, all within [-1, 1] and at least min_score, and no eligible item left out scores higher |
| Vectors.UpsertMeaning | src/phronesis/memory/vector/in_memory.py:40-48 | an upsert replaces exactly the ids it names, by their last item, and lists ids in the order in which they first arrived |
| Vectors.DeleteMeaning | src/phronesis/memory/vector/in_memory.py:79-95 | a delete removes exactly the ids it names |
| Vectors.DeleteCountsOnce | src/phronesis/memory/vector/in_memory.py:79-95 | what a delete counts is the number of distinct ids named that were there |
| VectorStores.PutEach | src/phronesis/memory/vector/in_memory.py:47-48 | the upsert loop |
| VectorStores.PopEach | src/phronesis/memory/vector/in_memory.py:89-95 | the delete loop and its count |
| VectorStores.DeleteAnswers | src/phronesis/memory/vector/in_memory.py:79-101 | a delete answers how many distinct ids it names were there, a count how many there are |
| VectorStores.InMemoryVectorStore.constructor | src/phronesis/memory/vector/in_memory.py:24-28 | an empty store |
| VectorStores.InMemoryVectorStore.Upsert | src/phronesis/memory/vector/in_memory.py:40-48 | the specified step on its scope, the other scopes untouched |
| VectorStores.InMemoryVectorStore.Search | src/phronesis/memory/vector/in_memory.py:50-77 | the specified answer |
| VectorStores.InMemoryVectorStore.Delete | src/phronesis/memory/vector/in_memory.py:79-95 | the specified step on its scope, the other scopes untouched |
| VectorStores.LoadAfterDump | src/phronesis/memory/vector/filesystem.py:50-109 | loading what was dumped gives the same items in the same order |
| VectorStores.FilesystemJSONVectorStore.Replay | src/phronesis/memory/vector/filesystem.py:111-174 | every trace of calls answers or fails as specified, each scope in the place of its file |
| VectorStores.InMemoryVectorStore.Replay | src/phronesis/memory/vector/in_memory.py:40-95 | every trace of calls answers as specified |
| VectorStores.FilesystemJSONVectorStore.Load | src/phronesis/memory/vector/filesystem.py:50-80 | the items of the scope's file, in file order; fails on a directory |
| VectorStores.FilesystemJSONVectorStore.Dump | src/phronesis/memory/vector/filesystem.py:82-109 | replaces the file of the scope, which is that of every scope sharing it, and no other; fails where a file stands for a directory or a directory for the file |
| VectorStores.FilesystemJSONVectorStore.Upsert | src/phronesis/memory/vector/filesystem.py:111-121 | the same step over load, edit and dump, or the disk's failure |
| VectorStores.FilesystemJSONVectorStore.Search | src/phronesis/memory/vector/filesystem.py:123-150 | the specified answer, or the disk's failure |
| VectorStores.FilesystemJSONVectorStore.Delete | src/phronesis/memory/vector/filesystem.py:152-167 | the same step over load, edit and dump, or the disk's failure |
| VectorStores.FilesystemJSONVectorStore.Count | src/phronesis/memory/vector/filesystem.py:169-174 | the specified answer, or the disk's failure |
| VectorStores.ReplayBoth | src/phronesis/memory/vector/filesystem.py:111-174 | the in-memory backend answers every trace as specified, the filesystem one every call the disk does not refuse, by file; they give equal answers when no two scopes share a file and no file is in another's way, in particular when no id has a slash |
| VectorStores.BackendsAgreeExactly | src/phronesis/memory/vector/filesystem.py:42-109 | the two backends give equal answers on all traces over some scopes if and only if no two of these scopes share a file and no file lies on another's directory path |

## Left out

- Timeouts and deadlines: `run_loop` uses `wait_for`, the stream checks between iterations, and they differ on purpose; the model runs without a timeout.
- Retries, hooks, tool setup and teardown, argument validation: part of what a tool oracle answers; setup is taken to succeed.
- Run, message and session ids, timestamps, tracing, metrics and logging.
- The hint text of a tool-not-found error and of other error messages: errors carry their kind and the data the code branches on.
- A consumer that abandons a stream half way.
- `_translate_for_compactor`: how messages are flattened to text for the summariser; the summariser is an oracle on the messages themselves.
- HTTP, SSE framing and the JSON codec: decoded payloads come in as values, with fields of the wrong type read as absent; decoding is assumed to invert encoding at the arguments of the calls a theorem is about, and nowhere else.
- Anthropic request printing: a printed block is described by its events, since no printer for one exists in the streaming module.
- Floating point: scores, costs, norms, clocks and thresholds are real numbers, the square root is any function that meets its definition, and NaN does not occur.
- `make_cache_key` and hashing: the cache key is an oracle; `CachedTools.TransparentExactlyWhenKeysAgree` says what it must satisfy.
- The asynchronous cached invoke path repeats the synchronous one.
- Retry, Race, Approval, Parallel, MapReduce, Consensus and the remaining modes: they drop tokens on purpose or repeat the shapes modelled here.
- Predicates and extractors that raise: `until`, `predicate` and the route and handoff extractors are total functions.
- Outcome metadata, except the score a tree search attaches, and leaves that return an outcome with children of their own.
- Cancellation is read at the number of leaf executions made so far; a request that arrives between two polls with no leaf in between is not distinguished.
- Mutable values: a KV list is a value, not shared with the caller who stored it; the checkpointer, which shares lists, is not modelled.
- Locks and threads: each store operation is atomic and reads the clock once.
- Corrupt files and failures of the disk other than a file in the place of a directory or the reverse; files and directories that were there before the store, the temporary file of a dump among them; and what the file system itself identifies: parent components, symbolic links and letter case. Ids without slashes keep clear of parent components.
- KeyValueStores.BackendsAgreeExactly: both backends are given the same clock readings, as they are in `KeyValueStores.ReplayBoth`; in the source the in-memory one reads a monotonic clock, the filesystem one wall-clock time, which outlives the process and may go back.
- SchemaMerges.MergeExactlyWhenHarmless: a variant with an `anyOf` of its own, and two sides with the same keywords of which some hold subschemas, are left undecided, because whether subschemas can be told apart depends on what is inside them; `SchemaMerges.StripExactlyWhenHarmless` inherits this and leaves roots with an `anyOf` undecided for the same reason.
- SchemaPointers.ReadingsAgreeExactlyOnPlainRefs: percent-encoded characters beyond ASCII are left encoded.
- SchemaInlining.InliningKeepsMeaning: references that lead elsewhere than to a definition, `#` or `#/properties/x` for example, are left out although one may still resolve in the result; so are subschemas with an `$id` of their own, which would start a new document.
- Losses.ConservesExactlyWhenLossless: trees with loops, supervisors, handoff chains and tree searches conserve when lossless; when they are not, a loss is shown for the shapes of `Losses.FragileAttemptsLose` only, because whether the others reach the raising node depends on their functions.
- What a query finds in memory and how it is rendered, cut to a number of characters: one text per query, or none, or a failure.
- Paths on Windows: `Paths` is the POSIX flavour of pathlib.
- Item metadata in vector stores, embeddings and their providers.
- Registries, decorators, prompts, MCP, pipelines and the other adapters.
