# ByteBrew Engine: verified model

A Dafny model of the parts of ByteBrew Engine whose behaviour is hardest to see from one function: the
delegation graph between agents, the chat event streams and the messages built from them, configuration export and
import, the seeds written at every boot, the life of a task, and three small text engines. Each module follows one
source file or one concern of it. Code that changes state step by step is modelled as methods and classes proved
against specification functions; the laws are lemmas about those functions, over every input, run or reachable state.

`dafny verify dfyconfig.toml` checks the whole project.

## Modules

| module | subject |
|---|---|
| `Wrappers`, `Strings` | optional values, results; trimming and line splitting as the browser does them |
| `Digraph`, `Adjacency` | walks, reachability, cycles, sources; adjacency maps and what a search can see |
| `Identifiers` | identifiers as text: the spellings the database reads, and the one it stores |
| `RelationService`, `RelationRuns`, `CycleVerdicts`, `RelationEffects` | the relation service's tables, cycle check and requests; whole runs of requests; which requests the check judges rightly; what each request is accepted for and all that it changes |
| `DelegationGraph`, `DelegationTree`, `DelegationKeys`, `DelegationOrder` | the admin panel's entry agent and the tree drawn from it; which agent a key means; the order of the cards |
| `SpawnGuard` | the run-time guard against spawn cycles |
| `EventStream`, `ReadersCompared` | the widget's and the admin panel's event-stream readers (sections 9.2.5 and 9.2.6 of the WHATWG HTML Living Standard), and when they handle the same frames |
| `ThinkTags`, `ChatMessages`, `ChatHistory`, `ChatLive`, `ChatFinal`, `ChatInputs`, `ThrottledReply`, `ChatContents` | reasoning blocks, restored and live messages, when they agree, what throttling shows, and what messages hold of their events |
| `SessionRestore`, `SessionMemory` | the abort protocol of mounting, loading and resetting a session; what is remembered and shown |
| `Upserts`, `ConfigStore`, `ConfigImport`, `ImportLaws`, `ImportFields`, `ImportSecrets`, `ConfigExport`, `ConfigExporter` | configuration tables, import and export, idempotence, what is written field by field, secrets, and the round trip |
| `BootSeed`, `BootEffects` | the seed cascade, and what it leaves row by row |
| `EngineTask` | task status and timestamps |
| `WidgetMarkdown`, `WidgetLists`, `CronScheduler`, `CronWords` | HTML escaping and list layout; cron presets printed, recognised, and said in words |

## Findings

Where a property one would expect does not hold, the model keeps the code as it is and proves exactly when it holds.

- **The cycle check compares identifiers as text.** A reference in standard form is taken as it is written, in either
  letter case; the search and the self-loop test compare it with the stored, lower-case identifiers as text, while the
  database reads both spellings as one. So two creations from an empty schema can leave two agents delegating to each
  other (`CycleVerdicts.TwoCreationsCloseCircle`), and an agent can be made its own target
  (`OtherSpellingClosesSelfLoop`); in a schema without relations it then becomes an entry agent that is no source
  (`RelationEffects.FirstRelationNamesSource`, `EntryOnCircle`). An update whose relation identifier is spelled otherwise leaves the replaced row in the
  search. The check is right on every acyclic graph if and only if the references and the relation's identifier are
  spelled as they are stored (`CreateJudgedRightlyIff`, `UpdateJudgedRightlyIff`); runs of requests that name agents, or
  spell their identifiers so, keep every schema acyclic (`RelationRuns.RunFromEmptySchemaIsAcyclic`).
- **Live and restored replies.** A tool result that names the most recent call, still open, is not handled alike by the
  two reducers if an earlier call of the same tool is open too: the live reducer writes the output into every open
  segment of the tool, restoring only into the latest (`ChatLive.TwoOpenCallsDiverge`, `EarlierOpenCallDiverges`). The
  replies agree at every moment if and only if every result fits the calls before it (`ChatLive.LiveAgreesThroughoutIff`),
  and at the end if and only if every call is settled (`ChatFinal.FinalAgreesIff`): no later result names its tool, or the
  first one comes before the next call and the last one before the next call carries the same output. Replies can differ
  in between and end alike (`ChatFinal.DivergesThenAgrees`).
- **The two stream readers differ.** The widget forgets the event name at blank lines and after unparsable data, the admin
  panel does neither (`ReadersCompared.BlankLineDiffers`). They handle the same frames of a text if and only if no such
  line stands between an event name and the data dispatched under it (`SameFramesIffNoneStray`; `SameFramesIff` when a
  handler may throw). On printed streams both return the same frames (`EventStream.PrintedStreamReadsBack`). A handler
  that throws, as on `null` data, ends the reading and the later frames are lost.
- **The seeds are not idempotent on a fresh database.** Creating the builder assistant leaves out the turn limit, so the
  column default 120 applies; the next boot updates the row and writes 0. Two boots equal one if and only if the assistant
  existed before (`BootSeed.BootIdempotentIff`); from the second boot on nothing changes (`ThirdBootChangesNothing`). The
  comment at `engine/internal/app/seed.go:349-351` says an existing assistant is not overwritten; the code overwrites it.
- **The restoring flag can stay set.** A reset, or a mount that finds no session, aborts a fetch and leaves `isRestoring`
  as it was, with nothing under way to clear it (`SessionRestore.ResetKeepsFlag`, `EmptyMountKeepsFlag`). With no fetch
  under way the flag is set if and only if some step aborted a fetch while it was set and none has started since
  (`RestoringAtRestIff`).
- **Export and import.** The round trip is the identity if and only if the database is canonical
  (`ConfigExport.RoundTripIff`); a binding to a model whose name is empty is one thing that is lost
  (`NamelessBindingIsLost`). An item that brings one real environment value replaces the whole stored environment, so
  masked secrets beside it are dropped (`ImportSecrets.MaskedNeighbourIsLost`); `EnvironmentSurvivesIff` and
  `SecretSurvivesIff` say exactly what survives a whole import.
- **Cron.** Clearing the time input prints `0 NaN * * *`, which is not a valid expression
  (`CronScheduler.ClearedTimeIsInvalid`); `BuiltIsValidIff` says exactly when a printed expression is valid.
- **Tasks.** The comments at `engine/internal/domain/engine_task.go:135` and `:149` name the statuses from which a task can
  start or fail; the table also allows both from `needs_input`, and the model follows the table.

## Model

| member | source | states |
|---|---|---|
| Digraph.EdgeKeepsAcyclicIff | engine/internal/app/http_adapters_schema.go:508-536 | adding an edge to an acyclic graph keeps it acyclic exactly when its target does not reach its source |
| Identifiers.StoredFormIsStored | engine/internal/app/http_adapters_schema.go:337-354 | whatever spelling the database reads, it stores the standard form in lower case |
| Identifiers.OwnFormIff | engine/internal/app/http_adapters_schema.go:337-354 | of the texts accepted as identifiers, exactly the lower-case ones are their own stored form |
| Identifiers.StoredFormIff | engine/internal/app/http_adapters_schema.go:337-354 | apart from the standard form the database reads exactly the spellings with hyphens between any groups of four digits, in braces or not, as the identifier with the same digits |
| Digraph.NoNewClosedWalk | engine/internal/app/http_adapters_schema.go:508-536 | on any graph, an edge with no way back creates no closed walk that was not there |
| Digraph.SourceAbove | engine/admin/src/lib/delegationGraph.ts:27-80 | every endpoint of a finite acyclic graph is reached from a node with outgoing and no incoming edges |
| RelationService.Reachable | engine/internal/app/http_adapters_schema.go:540-561 | the queue search terminates and returns true exactly when a path from the start to the destination exists |
| RelationService.EnqueueUnseen | engine/internal/app/http_adapters_schema.go:549-558 | one expansion finds the destination exactly when it is a neighbour, and otherwise queues exactly the neighbours not visited yet |
| RelationService.BuildAdjacency | engine/internal/app/http_adapters_schema.go:524-530 | the adjacency map lists exactly the edges of the stored rows, leaving out the row being updated |
| RelationService.Service.CheckNoCycleExcluding | engine/internal/app/http_adapters_schema.go:504-536 | ends written alike are invalid; another edge is refused as circular exactly when its target, as written, reaches its source in the schema's graph without the row excluded by its identifier as written |
| RelationService.Service.CreateAgentRelation | engine/internal/app/http_adapters_schema.go:400-459 | each refusal leaves the tables alone; success adds one row, in stored spelling, and makes its source the entry agent of a schema that had none |
| RelationService.Service.UpdateAgentRelation | engine/internal/app/http_adapters_schema.go:461-499 | each refusal leaves the tables alone; success replaces the row that the database finds, in its own schema |
| RelationService.Service.DeleteAgentRelation | engine/internal/app/http_adapters_schema.go:563-571 | removes exactly the row the database finds, reports it missing, or fails on text that is no identifier |
| RelationService.Service.ResolveEntry | engine/internal/app/http_adapters_schema.go:198-236 | an entry agent must resolve and occur in the schema's relations, if it has any; an empty reference clears it |
| RelationService.Service.UpdateSchema | engine/internal/app/http_adapters_schema.go:129-178 | each refusal leaves the tables alone; success changes exactly the fields that were brought, with names unique and the entry agent stored |
| RelationService.Service.DeleteAgent | engine/internal/app/agent_manager_http_adapter.go:391-431 | system agents stay; any other takes its relations along and is cleared from every schema's entry |
| RelationRuns.StepKeepsConsistent | engine/internal/app/http_adapters_schema.go:400-571 | every request keeps identifiers in stored form, names and pairs unique and all references resolving |
| RelationRuns.StepAddsNoCycle | engine/internal/app/http_adapters_schema.go:400-571 | a circle found after a request whose agents are spelled as stored, in any schema, was there before it |
| RelationRuns.RunAddsNoCycle | engine/internal/app/http_adapters_schema.go:400-571 | the same for every run of such requests, from any consistent state |
| RelationRuns.RunFromEmptySchemaIsAcyclic | engine/internal/app/http_adapters_schema.go:400-571 | a schema that starts without relations delegates acyclically after every run of such requests |
| CycleVerdicts.CreateRefusedIff | engine/internal/app/http_adapters_schema.go:400-459 | on an acyclic schema a new relation is refused as circular exactly when both agents are spelled as stored and the graph with it has a cycle |
| CycleVerdicts.CreateJudgedRightlyIff | engine/internal/app/http_adapters_schema.go:337-354 | the search judges an edge rightly on every acyclic graph exactly when both its ends are spelled as stored |
| CycleVerdicts.UpdateRefusedIff | engine/internal/app/http_adapters_schema.go:461-536 | the same for an update, on the graph that is searched; that is the graph without the old edge when the relation's identifier is spelled as stored |
| CycleVerdicts.UpdateJudgedRightlyIff | engine/internal/app/http_adapters_schema.go:508-536 | an update is judged rightly on every acyclic graph exactly when both agents and the relation are spelled as stored |
| CycleVerdicts.ResavingSucceeds | engine/internal/app/http_adapters_schema.go:461-536 | saving a relation of an acyclic schema with its own ends succeeds, however identifiers are spelled |
| CycleVerdicts.OtherSpellingClosesCircle | engine/internal/app/http_adapters_schema.go:400-459 | with one relation stored, its opposite is accepted when the first source's identifier is in another letter case |
| CycleVerdicts.OtherSpellingClosesSelfLoop | engine/internal/app/http_adapters_schema.go:400-459 | an agent is accepted as its own target when one reference is in another letter case |
| CycleVerdicts.TwoCreationsCloseCircle | engine/internal/app/http_adapters_schema.go:400-459 | a run of two creations that leaves two agents of a once empty schema delegating to each other |
| RelationEffects.CreateAcceptedIff | engine/internal/app/http_adapters_schema.go:400-440 | a relation is accepted exactly when its schema exists, its ends mean stored agents, are not written alike and not yet joined, and the search finds no way back |
| RelationEffects.CreateChanges | engine/internal/app/http_adapters_schema.go:421-451 | all that an accepted creation changes: one row between the agents meant, and the entry agent of a schema that had none, which becomes the agent the relation starts from; a refused one changes nothing |
| RelationEffects.FirstRelationNamesSource | engine/internal/app/http_adapters_schema.go:440-451 | the entry agent set by the first relation of a schema is a source of its graph exactly when the relation does not lead back to that agent, which holds whenever both ends are spelled as stored |
| RelationEffects.EntryOnCircle | engine/internal/app/http_adapters_schema.go:440-451 | the exception, on two stored agents: the first relation leads from an agent to itself, spelled otherwise, and makes it an entry agent that is no source |
| RelationEffects.NamesShown | engine/internal/app/http_adapters_schema.go:453-459 | the answer names each end by its agent's name, however it was referred to |
| RelationEffects.UpdateAcceptedIff | engine/internal/app/http_adapters_schema.go:461-499 | an update is accepted exactly when the relation exists and its new ends can be joined, the relation itself left out |
| RelationEffects.UpdateChanges | engine/internal/app/http_adapters_schema.go:461-499 | all that an accepted update changes: the two ends and the configuration of that relation; a refused one changes nothing |
| RelationEffects.DeleteRelationChanges | engine/internal/app/http_adapters_schema.go:563-571 | deleting a relation takes away the one row the text identifies, in whatever spelling, and nothing else |
| RelationEffects.DeleteAgentChanges | engine/internal/app/agent_manager_http_adapter.go:391-431 | deleting takes away the agent, exactly the relations it is an end of, and its places as entry agent; nothing changes for an unknown name or a system agent |
| RelationEffects.SystemAgentsStay | engine/internal/app/agent_manager_http_adapter.go:391-396 | no run of requests removes or alters a system agent |
| RelationEffects.EntryAllowedIff | engine/internal/app/http_adapters_schema.go:198-236 | the entry agent that is asked for is accepted exactly when it is cleared, left, or means a stored agent that belongs to the schema |
| RelationEffects.SchemaChanges | engine/internal/app/http_adapters_schema.go:129-178 | all that a schema update changes: in the one row the fields that were brought, if the name is free and the entry agent allowed; otherwise nothing |
| DelegationGraph.ComputeEntryAgent | engine/admin/src/lib/delegationGraph.ts:27-80 | returns the first agent in listing order with outgoing and without incoming relations by identifier or name, or none if there is none |
| DelegationGraph.ResolveOwner | engine/admin/src/lib/delegationGraph.ts:86-93 | when no key belongs to two agents, a key resolves to its owner and its name |
| DelegationGraph.CandidateIsSource | engine/admin/src/lib/delegationGraph.ts:44-80 | the marked-key test picks exactly the sources of the resolved graph |
| DelegationGraph.EntryFoundIffSource | engine/admin/src/lib/delegationGraph.ts:27-80 | an entry is found exactly when a source exists, and it is one |
| DelegationGraph.AcyclicHasEntry | engine/admin/src/lib/delegationGraph.ts:27-80 | non-empty acyclic relations always have an entry agent, with outgoing and no incoming edges |
| DelegationKeys.ResolveIff | engine/admin/src/lib/delegationGraph.ts:34-57 | on every listing a key means the last agent listed with it as identifier or, without one, as name; the empty key means nobody |
| DelegationKeys.CandidateIff | engine/admin/src/lib/delegationGraph.ts:40-77 | on every listing, agents sharing keys included: the entry test passes exactly when some relation starts and none ends at the agent's own keys or at an agent sharing a key with it |
| DelegationKeys.EntryIff | engine/admin/src/lib/delegationGraph.ts:27-80 | on every listing the entry is the first listed agent that starts a relation and ends none, and there is none exactly when no agent does |
| DelegationTree.TreeBuilder.Build | engine/admin/src/components/DelegationTree.tsx:69-80 | the recursive walk with its shared visited set terminates and computes the specified visit |
| DelegationTree.BuildTree | engine/admin/src/components/DelegationTree.tsx:36-83 | the tree of the resolved entry, none if the entry is unknown |
| DelegationTree.VisitShows | engine/admin/src/components/DelegationTree.tsx:69-80 | one visit shows exactly the agents it newly visits, each once, and leaves the visited set closed under children |
| DelegationTree.TreeShowsExactlyReachable | engine/admin/src/components/DelegationTree.tsx:36-83 | for every listing, cycles and duplicates included: no agent twice, tree edges are relations, depth grows by one, and exactly the agents reachable from the entry are shown |
| DelegationKeys.ResolveKeyIff | engine/admin/src/components/DelegationTree.tsx:41-53 | for the tree a key means the agent with that identifier, or else the last one listed under that name |
| DelegationOrder.TreeIsFirstCome | engine/admin/src/components/DelegationTree.tsx:55-82 | for every listing, each node lists the targets of its agent's relations in relation order, leaving out exactly those drawn before their turn came, depth first; each card is the last one listed |
| DelegationTree.EntryTreeCoversRelationsIff | engine/admin/src/components/DelegationTree.tsx:36-83 | for acyclic relations, the tree of the computed entry shows every related agent exactly when the entry is the only source |
| SpawnGuard.SpawnAgent | engine/internal/app/lifecycle_adapter.go:63-102 | refuses exactly the names among the ancestors, with the offending chain; else routes with the extended context |
| SpawnGuard.ExtendChain | engine/internal/domain/spawn_ancestors.go:11-24 | the new chain is a fresh copy extended by one name |
| SpawnGuard.SpawnSiblings | engine/internal/domain/spawn_ancestors.go:11-24 | two spawns from one context do not alter each other's list or the parent's |
| SpawnGuard.ChainPassesIffDistinct | engine/internal/app/lifecycle_adapter.go:63-71 | a nested chain passes the guard exactly when no name repeats, and the context lists it root to leaf |
| SpawnGuard.SpawnAfterChain | engine/internal/app/lifecycle_adapter.go:63-102 | after any chain that passed: a name in it is refused with the chain, any other goes to the pool exactly when it is one of the three code agents and not persistent, and to the manager otherwise |
| SpawnGuard.DepthBound | engine/internal/app/lifecycle_adapter.go:63-71 | nesting is at most as deep as there are agents |
| SpawnGuard.RefusalShowsCycle | engine/internal/app/lifecycle_adapter.go:63-71 | the refusal's chain is a duplicate-free path, from the root, followed by a name already on it |
| SpawnGuard.DelegationPassesIff | engine/internal/app/lifecycle_adapter.go:63-71 | spawning along a walk of relations passes exactly when the walk visits no agent twice |
| SpawnGuard.NeverRefusedIffAcyclic | engine/internal/app/lifecycle_adapter.go:63-71 | spawning along a schema's relations is never refused exactly when the schema is acyclic |
| SpawnGuard.DelegationNeverRefused | engine/internal/app/lifecycle_adapter.go:63-71 | so it is after every run of the relation service, from an empty schema, with agents spelled as stored |
| Strings.SplitResumes | engine/widget/src/chat.ts:103-143 | splitting a text into lines may stop anywhere and resume from the unfinished line |
| EventStream.ReadWidgetStream | engine/widget/src/chat.ts:103-143 | the chunked reader handles what one pass over all complete lines of the text handles, for every chunking, and ends where a handler throws |
| EventStream.ReadAdminStream | engine/admin/src/hooks/useSSEChat.ts:414-440 | the same for the admin panel's reader |
| EventStream.ChunkContinues | engine/widget/src/chat.ts:110-136 | one more chunk continues the pass from the carried event name and unfinished line |
| EventStream.EventLineIff | engine/admin/src/lib/sse.ts:9-13 | a line names an event exactly when it starts with the field name, a colon and a space; the name is the rest, trimmed |
| EventStream.DataLineIff | engine/admin/src/lib/sse.ts:9-13 | a line carries data exactly when it starts with that field name, a colon and a space; the data is the rest, untrimmed |
| EventStream.PrintedStreamReadsBack | engine/admin/src/lib/sse.ts:9-13 | on printed frames both readers return exactly the frames whose data parses, under their own names trimmed of white space, up to one whose handler throws |
| EventStream.AnyChunkingReadsBack | engine/admin/src/hooks/useSSEChat.ts:414-440 | printing well-formed frames, cutting anywhere and reading gives the frames back |
| ReadersCompared.SameFramesIff | engine/widget/src/chat.ts:118-135 | for all lines, both readers handle the same frames exactly when, until handlers throw for both, each data line is handled by both and no stray line separates it from its name, or throws for both |
| ReadersCompared.SameFramesIffNoneStray | engine/admin/src/hooks/useSSEChat.ts:424-440 | without throwing handlers: exactly when no blank line or unparsable data stands between an event name and the data dispatched under it |
| ReadersCompared.BlankLineDiffers | engine/widget/src/chat.ts:131-134 | with a blank line in between, the widget handles the data under no name and the admin panel under its name |
| ThinkTags.StripLeavesNoTag | engine/admin/src/hooks/useSSEChat.ts:62-66 | no output contains an opening tag, even when removing a block joins a new one |
| ThinkTags.StripIsIdempotent | engine/admin/src/hooks/useSSEChat.ts:62-66 | stripping twice is stripping once, on every string |
| ThinkTags.ClosedBlocksGoExactly | engine/admin/src/hooks/useSSEChat.ts:62-66 | of visible text and closed blocks, stripping leaves the visible text, trimmed at its start, cut only where pieces that met spell an opening tag |
| ThinkTags.OpenBlockAddsNothing | engine/admin/src/hooks/useSSEChat.ts:62-66 | after any text whatever, a block that is still open adds nothing to what stripping leaves |
| ChatMessages.CloseLatestCommutes | engine/admin/src/hooks/useSSEChat.ts:154-184 | closing a call among the segments closes the same call in the list of calls and leaves the text alone |
| ChatHistory.MapEventsToMessages | engine/admin/src/hooks/useSSEChat.ts:88-204 | the mapping loop computes the specified messages |
| ChatHistory.CloseLatestCall | engine/admin/src/hooks/useSSEChat.ts:160-171 | the backward scan closes the most recent open call of the tool and says whether there was one |
| ChatHistory.CloseLatestIn | engine/admin/src/hooks/useSSEChat.ts:172-183 | the same scan over segments |
| ChatHistory.GroupedMessagesAreCoherent | engine/admin/src/hooks/useSSEChat.ts:88-204 | in every output, content is the text of the segments, calls with outputs are the calls of the segments, no two text segments are adjacent |
| ChatHistory.MappingSplitsAtBoundary | engine/admin/src/hooks/useSSEChat.ts:88-204 | the mapping is a concatenation at every user or system event |
| ChatHistory.SplittingTextIsInvisible | engine/admin/src/hooks/useSSEChat.ts:88-204 | splitting a text event in two does not change the messages |
| ChatContents.ResultClosesLatest | engine/admin/src/hooks/useSSEChat.ts:160-171 | a result goes to the one open call of its tool that no open one follows, and nowhere if none is open |
| ChatContents.RestoredTurnHolds | engine/admin/src/hooks/useSSEChat.ts:122-152 | a restored turn has all the text of its events and one call for each call event, in order, with tool and input |
| ChatContents.CallStandsInPlace | engine/admin/src/hooks/useSSEChat.ts:141-152 | among the segments every call stands after exactly the text and the calls that came before it |
| ChatContents.TurnMessage | engine/admin/src/hooks/useSSEChat.ts:93-107 | a turn becomes one message under the identifier of its first text or call, or none if it has neither |
| ChatLive.ResultHandledAlikeIff | engine/admin/src/hooks/useSSEChat.ts:447-531 | on a coherent turn a tool result is handled alike live and restored exactly when it fits the calls |
| ChatLive.LiveAgreesThroughoutIff | engine/admin/src/hooks/useSSEChat.ts:447-531 | live and restored replies are the same at every moment exactly when every tool result fits |
| ChatLive.EarlierOpenCallDiverges | engine/admin/src/hooks/useSSEChat.ts:486-503 | with an earlier open call of the same tool the two reducers differ on every result for the latest |
| ChatLive.TwoOpenCallsDiverge | engine/admin/src/hooks/useSSEChat.ts:486-503 | the shortest such stream: two calls of one tool and a result |
| ChatLive.SplittingDeltaIsInvisible | engine/admin/src/hooks/useSSEChat.ts:448-463 | splitting a streamed text delta in two, in any stream, does not change the live reply |
| ChatFinal.FinalAgreesIff | engine/admin/src/hooks/useSSEChat.ts:447-503 | the finished live reply is the restored one exactly when for each call either no later result names its tool, or the first comes before the next call and the last one before that carries the same output |
| ChatFinal.LiveLog | engine/admin/src/hooks/useSSEChat.ts:486-499 | the live list of calls keeps each call's last result before the next call, the live segments its first result |
| ChatFinal.DivergesThenAgrees | engine/admin/src/hooks/useSSEChat.ts:486-503 | three results of one call, the third repeating the first, make the replies differ and then agree |
| ChatLive.FlagTracksText | engine/admin/src/hooks/useSSEChat.ts:447-503 | the reducer's flag always says whether the last segment is text |
| ChatContents.StreamedReplyHolds | engine/admin/src/hooks/useSSEChat.ts:448-503 | at every point of a stream the reply holds all deltas and all calls started, in content, calls and segments alike |
| ChatContents.ReplacedReplyHolds | engine/admin/src/hooks/useSSEChat.ts:464-474 | a whole message takes the place of all text and segments before it, and keeps the calls |
| ChatInputs.RepliesAgreeThroughoutIff | engine/admin/src/hooks/useSSEChat.ts:88-204 | the agreement at every moment also holds exactly then when stream and store word tool inputs differently, inputs left out |
| ChatInputs.FinalRepliesAgreeIff | engine/admin/src/hooks/useSSEChat.ts:88-204 | and so does the agreement of the finished replies |
| ThrottledReply.Reply.FlushUpdate | engine/admin/src/hooks/useSSEChat.ts:354-363 | applies the pending patch to the one message and clears patch and timer |
| ThrottledReply.Reply.UpdateAssistant | engine/admin/src/hooks/useSSEChat.ts:365-370 | merges into the pending patch and makes sure a timer is set |
| ThrottledReply.Reply.UpdateAssistantNow | engine/admin/src/hooks/useSSEChat.ts:372-377 | clears the timer and shows the merged patch at once |
| ThrottledReply.Reply.TimerCallback | engine/admin/src/hooks/useSSEChat.ts:352-370 | a set timer flushes |
| ThrottledReply.Reply.OnStreamEvent | engine/admin/src/hooks/useSSEChat.ts:447-531 | each event takes the specified step of the live reducer and asks for the specified update |
| ThrottledReply.ThrottlingShowsPrefix | engine/admin/src/hooks/useSSEChat.ts:348-377 | under every interleaving of timers the screen shows a prefix of the patches in order, the pending patch stands for the rest, and a timer is set exactly when a patch is pending |
| ThrottledReply.ImmediateUpdateShowsAll | engine/admin/src/hooks/useSSEChat.ts:372-377 | right after an immediate update the screen shows all patches applied in order |
| ChatContents.EventShownAtOnce | engine/admin/src/hooks/useSSEChat.ts:448-531 | calls, results, ends and errors are on screen, with all before them, as soon as they are taken in; only text may wait for the timer |
| ThrottledReply.EndOfStreamShowsReply | engine/admin/src/hooks/useSSEChat.ts:348-531 | after any stream, whole messages, errors and ends included, the whole reply is shown and nothing is pending, however timers fired |
| ThrottledReply.FinishedReplyMatchesRestoredIff | engine/admin/src/hooks/useSSEChat.ts:348-531 | the finished reply on screen is the restored turn with reasoning hidden, and no other message changed, exactly when every call is settled |
| ThrottledReply.TurnIsOneMessage | engine/admin/src/hooks/useSSEChat.ts:88-204 | restoring one turn in which the assistant said or did something gives one grouped message |
| SessionRestore.Hook.MountWithResolver | engine/admin/src/hooks/useSSEChat.ts:230-299 | mounting aborts what was restoring and starts asking which session to resume |
| SessionRestore.Hook.MountWithStorage | engine/admin/src/hooks/useSSEChat.ts:230-299 | mounting resumes the stored session, or empties the panel |
| SessionRestore.Hook.OnResolved | engine/admin/src/hooks/useSSEChat.ts:230-299 | an aborted resolution changes nothing shown; another starts the fetch or empties the panel |
| SessionRestore.Hook.LoadSession | engine/admin/src/hooks/useSSEChat.ts:550-585 | loading aborts the current restore, empties the panel and fetches the given session |
| SessionRestore.Hook.ResetSession | engine/admin/src/hooks/useSSEChat.ts:301-314 | resetting aborts the current restore and forgets the session |
| SessionRestore.Hook.OnFetched | engine/admin/src/hooks/useSSEChat.ts:272-294 | an answer is shown exactly when its controller was not aborted |
| SessionRestore.Hook.OnFetchFailed | engine/admin/src/hooks/useSSEChat.ts:272-294 | a failure forgets the session exactly when its controller was not aborted |
| SessionRestore.StepKeepsOrder | engine/admin/src/hooks/useSSEChat.ts:230-314 | every step keeps: only the newest controller can count, and what is shown follows from what became of it |
| SessionRestore.LatestRequestWins | engine/admin/src/hooks/useSSEChat.ts:550-585 | over every interleaving at most one controller counts, and with none waiting the panel is empty or shows the newest request's answer for the current session |
| SessionRestore.AskingShowsWhatWasShown | engine/admin/src/hooks/useSSEChat.ts:230-266 | as long as a mount asks which session to resume, session and messages are those from before it began |
| SessionRestore.FlagAfter | engine/admin/src/hooks/useSSEChat.ts:230-314 | after every run the flag is set exactly when a fetch that counts is under way or one was left hanging, never both |
| SessionRestore.RestoringAtRestIff | engine/admin/src/hooks/useSSEChat.ts:230-314 | with no such fetch, the panel claims to be restoring exactly when a step aborted a fetch while it did and none has started since |
| SessionRestore.ResetKeepsFlag | engine/admin/src/hooks/useSSEChat.ts:301-314 | from every reachable state a reset leaves the panel at rest and empty, and the flag as it was |
| SessionRestore.EmptyMountKeepsFlag | engine/admin/src/hooks/useSSEChat.ts:230-266 | and so does a mount that finds no stored session |
| SessionRestore.ResetWhileLoadingLeavesFlag | engine/admin/src/hooks/useSSEChat.ts:301-314 | a reset during a load is such a case |
| SessionMemory.OpensOnStored | engine/admin/src/hooks/useSSEChat.ts:214-228 | a panel opens empty on the stored session, and asking which one to resume leaves it there |
| SessionMemory.MountResumesStored | engine/admin/src/hooks/useSSEChat.ts:246-270 | from every reachable state a mount fetches the stored session, or with none leaves the panel empty and at rest |
| SessionMemory.ResetForgets | engine/admin/src/hooks/useSSEChat.ts:301-314 | from every reachable state a reset leaves nothing stored, and a mount after it resumes nothing |
| SessionMemory.FailureForgets | engine/admin/src/hooks/useSSEChat.ts:283-290 | a fetch that counts and fails empties the panel, leaves nothing stored, and a mount after it resumes nothing |
| SessionMemory.LoadIsRemembered | engine/admin/src/hooks/useSSEChat.ts:550-567 | loading empties the panel and fetches the session, and so does a mount after it, unless the identifier is empty |
| SessionMemory.BegunIsRemembered | engine/admin/src/hooks/useSSEChat.ts:230-314 | over whole runs, a session that was begun stays stored until a reset, a failure that counts, or another beginning |
| SessionMemory.OpenedIsRemembered | engine/admin/src/hooks/useSSEChat.ts:230-314 | and what was stored at the start stays until the first of these |
| SessionMemory.AnswerShown | engine/admin/src/hooks/useSSEChat.ts:272-294 | an answer that counts shows the messages of the current session and ends the restoring; any other changes nothing shown |
| SessionMemory.ResolutionHeeded | engine/admin/src/hooks/useSSEChat.ts:246-270 | a resolution that counts fetches its session, or empties the panel and keeps what is stored; any other changes nothing shown |
| SessionMemory.StaleFailureIgnored | engine/admin/src/hooks/useSSEChat.ts:283-290 | a failure that does not count changes nothing shown or stored |
| SessionMemory.AskingMount | engine/admin/src/hooks/useSSEChat.ts:230-252 | a mount that asks which session to resume changes nothing shown, and from then on only its answer counts |
| Upserts.RowAfter | engine/internal/app/config_import_export_http_adapter.go:219-245 | the row of a name after the whole loop, repeated names included; a new name starts from a blank row with a new identifier |
| Upserts.UpsertAllIdempotent | engine/internal/app/config_import_export_http_adapter.go:219-315 | a run of upserts by name repeated changes nothing, however often a name repeats |
| Upserts.UpsertAllUnchangedIff | engine/internal/app/config_import_export_http_adapter.go:219-315 | upserts of present, distinct names change nothing exactly when each writes what is there |
| ConfigImport.Importer.ImportModels | engine/internal/app/config_import_export_http_adapter.go:219-245 | succeeds exactly when all types are allowed, and then upserts every item, keeping API keys |
| ConfigImport.Importer.ImportServers | engine/internal/app/config_import_export_http_adapter.go:247-315 | the same for servers, dropping placeholder environment values and keeping lists the item leaves out |
| ConfigImport.Importer.UpsertAgents | engine/internal/app/config_import_export_http_adapter.go:335-418 | the first pass succeeds exactly when models resolve and values are allowed, and remembers each agent's row |
| ConfigImport.Importer.SyncAgentRelations | engine/internal/app/config_import_export_http_adapter.go:431-470 | succeeds exactly when servers exist and nothing is listed twice, and then replaces the agent's tools and links |
| ConfigImport.Importer.ImportAgents | engine/internal/app/config_import_export_http_adapter.go:335-429 | the two passes together |
| ConfigImport.Importer.ImportYaml | engine/internal/app/config_import_export_http_adapter.go:191-217 | succeeds exactly when the configuration fits the database; a failure anywhere leaves it as it was |
| ImportFields.ImportedModel | engine/internal/app/config_import_export_http_adapter.go:219-245 | an imported model has its last item's type, address and model name; everything else is kept, or the column's default for a new one |
| ImportFields.ImportedServer | engine/internal/app/config_import_export_http_adapter.go:282-309 | an imported server has its last item's type, command and address; how it authenticates is kept, or the default |
| ImportFields.ImportedArguments | engine/internal/app/config_import_export_http_adapter.go:252-258 | its arguments are those of the last item that brings any, and otherwise kept |
| ImportFields.ImportedHeaders | engine/internal/app/config_import_export_http_adapter.go:276-281 | its forwarded headers likewise |
| ImportFields.ImportedEnvironment | engine/internal/app/config_import_export_http_adapter.go:259-274 | its environment is that of the last item with values that are no placeholders, those values only, and otherwise kept |
| ImportFields.PlaceholderIff | engine/internal/app/config_import_export_http_adapter.go:489-491 | a placeholder is any text between a dollar sign with an opening brace and a closing brace |
| ImportFields.ImportedAgent | engine/internal/app/config_import_export_http_adapter.go:317-418 | an imported agent carries its last item's prompt, lifecycle, tool execution, limits, sampling values and lists, with the named default wherever the item is empty or zero; identifier and system flag are kept |
| ImportFields.ImportedTools | engine/internal/app/config_import_export_http_adapter.go:431-470 | its tools are the item's, numbered in order, and its links the item's servers, and there are no others |
| ImportFields.UnnamedRowsStay | engine/internal/app/config_import_export_http_adapter.go:191-418 | a row whose name no item brings is as it was, and none appears |
| ImportLaws.ImportIsIdempotent | engine/internal/app/config_import_export_http_adapter.go:191-470 | a successful import run again succeeds and changes nothing, repeated names included |
| ImportLaws.ImportedReferencesResolve | engine/internal/app/config_import_export_http_adapter.go:335-470 | an imported agent has exactly the model, tools and servers its last item names, and all exist |
| ImportLaws.ImportKeepsConsistent | engine/internal/app/config_import_export_http_adapter.go:191-470 | a successful import keeps identifiers unique, references resolving and values allowed |
| ImportSecrets.EnvironmentSurvivesIff | engine/internal/app/config_import_export_http_adapter.go:247-315 | after a whole import, repeated names included, a stored environment is unchanged exactly when no item of its server brings real values or the last to do so brings the same |
| ImportSecrets.SecretSurvivesIff | engine/internal/app/config_import_export_http_adapter.go:247-315 | one stored value survives exactly when no item of its server brings real values or the last to do so repeats it |
| ImportSecrets.MaskedNeighbourIsLost | engine/internal/app/config_import_export_http_adapter.go:247-315 | changing one of two values and leaving the other masked loses the other |
| ImportSecrets.ApiKeysSurvive | engine/internal/app/config_import_export_http_adapter.go:219-245 | no import touches the API key of an existing model |
| ImportSecrets.ExportHidesSecrets | engine/internal/app/config_import_export_http_adapter.go:129-188 | databases that differ only in API keys and environment values have the same exports |
| ImportSecrets.ExportMasks | engine/internal/app/config_import_export_http_adapter.go:148-176 | every environment name is exported with a placeholder of that name for its value |
| ConfigExport.ServerSurvives | engine/internal/app/config_import_export_http_adapter.go:148-188 | exporting a server and writing the item back leaves every row as it was, masked secrets included |
| ConfigExport.AgentSurvivesIff | engine/internal/app/config_import_export_http_adapter.go:63-127 | an exported agent writes its own row back exactly when the row is canonical |
| ConfigExport.ToolsSurviveIff | engine/internal/app/config_import_export_http_adapter.go:431-446 | an agent's tools come back exactly when they are builtin, without configuration and numbered in order |
| ConfigExport.RoundTripIff | engine/internal/app/config_import_export_http_adapter.go:63-470 | importing any export of a database into it succeeds and changes nothing exactly when the database is canonical |
| ConfigExport.ExportIsComplete | engine/internal/app/config_import_export_http_adapter.go:63-188 | every model, server and agent occurs in an export, and none twice |
| ConfigExport.NamelessBindingIsLost | engine/internal/app/config_import_export_http_adapter.go:335-347 | an agent bound to a model without a name comes back unbound |
| ConfigExporter.ExportModels | engine/internal/app/config_import_export_http_adapter.go:129-146 | every model once, without its key |
| ConfigExporter.ExportServers | engine/internal/app/config_import_export_http_adapter.go:148-188 | every server once, environment values masked |
| ConfigExporter.ExportAgents | engine/internal/app/config_import_export_http_adapter.go:63-127 | every agent once, with its model's name, its tools by sort order and its linked servers |
| ConfigExporter.BuildExportConfig | engine/internal/app/config_import_export_http_adapter.go:63-188 | the loops produce an export, whatever order rows are read in |
| BootSeed.Seeder.ModelHasUsableKey | engine/internal/app/seed.go:242-257 | true exactly for a named, stored model with a key |
| BootSeed.Seeder.EnsureDefaultModel | engine/internal/app/seed.go:270-299 | the default chat model if it has a key, else the first chat model with one, else none |
| BootSeed.Seeder.SeedDocs | engine/internal/app/seed.go:321-347 | inserts the documentation server once, if an address is given |
| BootSeed.Seeder.SeedAssistant | engine/internal/app/seed.go:352-398 | writes the factory settings, keeps a usable binding and rebinds any other |
| BootSeed.Seeder.SeedSchema | engine/internal/app/seed.go:421-482 | creates the schema or enables its chat, filling an entry agent only where none is set |
| BootSeed.Seeder.BootstrapSeeds | engine/internal/app/seed.go:33-54 | the cascade in order |
| BootSeed.DocsInPlace | engine/internal/app/seed.go:321-347 | after a boot with an address the documentation server is present and linked to the assistant, and no server row that existed has changed |
| BootSeed.AssistantBindingUsable | engine/internal/app/seed.go:352-398 | after every boot the assistant is unbound or bound to a model that has a key |
| BootSeed.UsableBindingPreserved | engine/internal/app/seed.go:352-398 | a binding to a named model with a key stays |
| BootSeed.EntryAgentKept | engine/internal/app/seed.go:421-482 | an entry agent already set stays |
| BootSeed.BootIdempotentIff | engine/internal/app/seed.go:33-54 | a second boot changes nothing exactly when the assistant existed before the first |
| BootSeed.ThirdBootChangesNothing | engine/internal/infrastructure/persistence/configrepo/agent_repository.go:161-232 | from the second boot on, booting changes nothing |
| BootEffects.ChosenModel | engine/internal/app/seed.go:270-299 | the first default chat model is chosen if it has a key, failing that the first listed chat model with a key, failing that none |
| BootEffects.AssistantBinding | engine/internal/app/seed.go:352-398 | the assistant keeps a binding to a named model with a key, and is bound to the chosen model otherwise |
| BootEffects.AssistantSettings | engine/internal/app/seed.go:302-315 | whatever the assistant was before, a boot leaves it the factory's settings, marked as a system agent; its turn limit tells whether it was there |
| BootEffects.AssistantTools | engine/internal/app/seed.go:302-315 | it has the factory's tools in their order and the documentation server if there is one, and nothing else |
| BootEffects.OthersStay | engine/internal/app/seed.go:33-54 | a boot writes no model, no other agent, and no other agent's tools or links |
| BootEffects.SchemaAfterBoot | engine/internal/app/seed.go:421-482 | the builder's schema can be chatted with and has the entry agent it had, or else the assistant; no other schema changes |
| EngineTask.Task.CanTransitionTo | engine/internal/domain/engine_task.go:93-104 | the scan of the table finds exactly the allowed targets; an unknown status has none |
| EngineTask.Task.TransitionTo | engine/internal/domain/engine_task.go:107-128 | a refusal changes nothing; a move sets status and the one timestamp that belongs to it |
| EngineTask.Task.Approve | engine/internal/domain/engine_task.go:131-133 | succeeds from draft only |
| EngineTask.Task.Start | engine/internal/domain/engine_task.go:136-138 | succeeds from approved, pending and needs-input only |
| EngineTask.Task.Complete | engine/internal/domain/engine_task.go:141-147 | succeeds from in-progress only and keeps the result |
| EngineTask.Task.Fail | engine/internal/domain/engine_task.go:150-156 | succeeds from in-progress and needs-input only and keeps the reason |
| EngineTask.Task.Cancel | engine/internal/domain/engine_task.go:159-161 | succeeds from every known status that is not terminal |
| EngineTask.StuckIffTerminal | engine/internal/domain/engine_task.go:81-90 | exactly the terminal and the unknown statuses refuse every target |
| EngineTask.StepKeepsCoherent | engine/internal/domain/engine_task.go:107-161 | every call keeps timestamps matching the status and in order, and undoes no terminal status, start time or approval |
| EngineTask.RunIsCoherent | engine/internal/domain/engine_task.go:72-161 | under a monotone clock, from draft or pending: completed-at is set exactly when terminal, completed and failed tasks have started, drafted tasks start only once approved, and approval, start and end are in order |
| EngineTask.LaterContinuesEarlier | engine/internal/domain/engine_task.go:72-161 | at any two points of a run, the later one has the earlier one's start time and approval, and equals it if that was terminal |
| EngineTask.AllowedIff | engine/internal/domain/engine_task.go:81-104 | which status may follow which, told by the status that is entered |
| EngineTask.StartedByFirstEntry | engine/internal/domain/engine_task.go:107-128 | over every run the start time is that of the first call that enters work, however often it is resumed |
| EngineTask.EndedByOneCall | engine/internal/domain/engine_task.go:107-156 | a terminal status, its time, and the result or reason kept with it come from one call of the run |
| EngineTask.ApprovedByOneCall | engine/internal/domain/engine_task.go:107-133 | an approval carries the time of the call that approved the draft |
| WidgetMarkdown.SequentialIsSimultaneous | engine/widget/src/markdown.ts:33-39 | the four replacements in sequence are one substitution of each character |
| WidgetMarkdown.EscapeReadsBack | engine/widget/src/markdown.ts:33-39 | reading the entities back undoes escaping, on every string |
| WidgetMarkdown.EscapeLeavesNoMarkup | engine/widget/src/markdown.ts:33-39 | escaped text holds no angle bracket and no double quote |
| WidgetMarkdown.ProcessLines | engine/widget/src/markdown.ts:41-91 | the loop with its list flag lays lines out as one list around every maximal run of items, every other line by itself |
| WidgetMarkdown.PushedIsLayout | engine/widget/src/markdown.ts:41-91 | keeping one flag and taking maximal runs give the same output |
| WidgetMarkdown.LayoutIsWellNested | engine/widget/src/markdown.ts:41-91 | list markers strictly alternate and end closed, no list is empty, and items stand inside lists and nothing else does |
| WidgetMarkdown.LayoutKeepsLines | engine/widget/src/markdown.ts:41-91 | no line that is not blank is lost, doubled or moved |
| WidgetMarkdown.LineLeaves | engine/widget/src/markdown.ts:46-82 | what one line leaves: itself if preformatted, the item after a dash or a star and white space, nothing if blank, else a line of text |
| WidgetLists.MarkersBetween | engine/widget/src/markdown.ts:46-82 | between two lines stands one marker exactly when one of them is an item: items that follow each other share a list, every other line ends it |
| CronScheduler.FieldsOfJoined | engine/admin/src/components/CronScheduler.tsx:78-90 | splitting at white space undoes joining, for fields without white space |
| CronScheduler.BuiltIsFound | engine/admin/src/components/CronScheduler.tsx:78-102 | whatever the pickers hold, the expression printed for a preset is recognised as that preset, despite the earlier entries |
| CronScheduler.BuiltIsValidIff | engine/admin/src/components/CronScheduler.tsx:33-38 | a printed expression is valid exactly when every picker the preset offers holds a number that is not negative |
| CronScheduler.ClearedTimeIsInvalid | engine/admin/src/components/CronScheduler.tsx:145-155 | a cleared time input prints an invalid expression |
| CronScheduler.ExtractRecovers | engine/admin/src/components/CronScheduler.tsx:104-110 | the extracted time stands for the numbers the expression was printed from, padded or not |
| CronScheduler.PickersRoundTrip | engine/admin/src/components/CronScheduler.tsx:128-155 | reading a printed expression into the padded pickers and printing again gives it back |
| CronScheduler.FoundRebuilds | engine/admin/src/components/CronScheduler.tsx:78-102 | a preset is found only for an expression that differs from its own in nothing but the numbers of its pickers |
| CronScheduler.RangeListIff | engine/admin/src/components/CronScheduler.tsx:33-38 | the fields beside the starred ones are the lists of ranges separated by single commas |
| CronScheduler.RangeIff | engine/admin/src/components/CronScheduler.tsx:33-38 | a range is a number or two numbers joined by a hyphen |
| CronWords.ShownReadsBack | engine/admin/src/components/CronScheduler.tsx:128-155 | a number printed into an expression is read back, and so is what is printed for none |
| CronWords.TwelveHours | engine/admin/src/components/CronScheduler.tsx:58-64 | an hour of the day is shown as its number on a clock face, with the half of the day it is in |
| CronWords.SentenceSaysLabel | engine/admin/src/components/CronScheduler.tsx:40-76 | for every preset and whatever the pickers hold, the sentence for the printed expression says what the preset's label says, and the time |

## Left out

- HTTP routing, authentication, tenants and SQL text: one tenant, and tables are maps with the constraints as invariants; a violated constraint is an outcome of the request.
- Two create requests at the same time: listing the edges and inserting one is not atomic in the source; requests are taken one after the other.
- The administration tools' own path for creating relations, which does not check for cycles: the acyclicity results are about the relation service.
- Identifiers drawn by the database are parameters or counters, and the order in which rows are listed is arbitrary or a parameter.
- Text lengths limited by the columns, row identifiers of tools, and the updated-at times of configuration rows.
- YAML and JSON encoding, malformed stored JSON, and relations exported with an agent, which import ignores.
- The check constraints' value sets are a field of the database; `MIGRATED_LIMITS` gives those of the migration.
- Byte decoding of streams; which data lines parse as JSON, and under which event name handling one throws, are given functions of the readers.
- The spellings of identifiers that the database reads are those that the PostgreSQL documentation lists for the type uuid (section 8.12): either letter case, braces around it, hyphens left out or added between groups of four digits.
- Deleting a schema, which deletes its relations, is not among the requests of a run.
- What `done` and `error` events do to the session, stopping a stream, sending, a changed storage key, unmounting, and a fetch that itself raises an abort error.
- SessionRestore.LatestRequestWins: says empty or the answer for the current session, because loading the session with the empty identifier is not excluded by the code and shows its answer.
- The other seeders (catalogue, templates, model from the environment, tokens), and the assistant's prompt and tool names, which are parameters.
- Task priority, blockers and validation, which touch neither status nor the timestamps the results are about, except the time of the last update.
- Agent lifecycle objects (`lifecycle.go`, `agent_lifecycle.go`): their transition table would only add easy members.
- The widget's regular expressions for code, bold and links, and joining the laid-out lines with the last line break removed.
- The scheduler's React state, and weekday fields that are names of properties every object inherits, which the sentence looks up like day names; picker numbers are unbounded, while the browser's are exact only below 2^53.
- Rendering, styling, local storage, the API client, the session registry and the processor.
