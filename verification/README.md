# Verified model of the herdr Go client

This project models the parts of the herdr Go client and of its generators whose correctness is hardest to see, and
proves what they promise. `dafny verify dfyconfig.toml` checks all of it.

**The session mirror.** A client keeps workspaces, tabs, panes, agents and layouts in five insertion-ordered
collections and folds every server event into them. `AssocList` is the reference model of one collection,
`OrderedIndex` the class with its id list and entry table, proved against it. `Mirror` is the reducer on values and
`SessionCaches` the class that updates the five collections in place, proved against the reducer. On top of it: every
reachable cache is well formed, a snapshot rebuilds the mirror it was taken from (`Mirror`); replaying a whole buffer
onto a cache that already reflects a prefix converges on workspaces, tabs and panes (`Replay`), on agents and on
layouts exactly when stated (`Homes`, `ReplayAgents`, `ReplayLayouts`), and on the whole mirror, order included, under
conditions on the prefix (`ReplayOrder`); applying one event twice changes nothing, with the exact condition for
`tab.moved` (`Idempotence`, `Reorder`); agents agree with their panes, with the exact condition for `pane.moved`
(`Agreement`, `Moves`), and each event leaves of each agent what is spelled out field by field (`AgentActions`); focus
events move the focused ids of a snapshot (`Focus`); closing a container takes exactly what lies under it (`Cascade`);
and nothing a caller writes reaches the mirror (`Naturality`, `Ownership`).

**The connection protocol.** `StreamProtocol` is one stream with its reading goroutine, the collector that buffers
during a bootstrap, and the calls of `Next`; `SessionProtocol` is a session with `Next`, reconnecting, and a
concurrent `Close`; `Connection` is the opening exchange with its cancellation watcher. Each is a state machine whose
steps are the critical sections and blocking points of the code, and the theorems are about all interleavings of them.
`StreamCalls` and `SessionCalls` add which bootstraps succeed, what ends a call with an error, and what whole
undisturbed calls do. `SessionStreams` runs a session together with its streams as one machine: what callers are told
and what the mirror holds is read off the wires of the streams, and with the replay theorems the mirror sees what the
server sees.

**The generators.** `TypeGraph` and `BreakCycles` are the pass that boxes optional fields until no struct contains
itself by value: an in-place fixpoint over field objects with a depth-first search. `CopyCompiler` is a deep embedding
of the Clone generator: field types, the statements emitted for them, values with addresses, and an interpreter.
`CopyCorrect` proves the emitted code correct for every supported type and every acyclic value, `DeepCopy` states what
callers of Clone get, `FieldTypes` builds the field types of a schema and shows that Clone is exact on all of them,
and `CloneEmitters` is the emitter object with its validation and its running variable counter.

**The Rust source scanner.** `RustScanner` is the balanced-delimiter scan over text with comments, strings and
character literals, and the two line-preserving views of a file. `LayeredSearch` is the search of the call graph for
the responses nearest to a dispatch point.

## Where the code does not give what its comments say

* **Clone as emitted is not a deep copy for every supported type.** `internal/gen/emit_clone.go` emits nothing for a
  null Optional, so the destination keeps what it held. For a field that is the copied null; for an Optional directly
  under a pointer, inside a copied slice or map, or inside another Optional, it is a fresh zero, and the copy is absent
  (`DeepCopy.LostNull` is a run on such a type). `DeepCopy.ExactIffNoNullLost` and `DeepCopy.ExactIffSafeSchema` say
  exactly when it matters. It never does for a generated type: the generator puts an Optional outermost or nowhere
  (`FieldTypes.FieldsAreGenerated`), so Clone of a generated type loses no null (`FieldTypes.GeneratedClonesAreExact`).
* **Applying `tab.moved` twice can reorder.** `herdr/session_cache.go:37-39` promises that the same event twice leaves
  the same state. `Reorder.UnsettledPayload` is a payload for which it does not;
  `Reorder.TwiceIffPlacedInOneRun` says exactly when it does, from the held tabs and the payload, and
  `Reorder.TwiceWithoutClash` from the payload alone when no listed tab is held by another workspace.
* **Replaying a buffer need not converge for agents, layouts and order.** For workspaces, tabs and panes it always does.
  `ReplayAgents.AgentConvergesIff` is exact for every agreed mirror and every list without moves, and
  `ReplayLayouts.LayoutConvergesIff` for every mirror and every list. Conditions that suffice: pane ids keep their tab
  and workspace, every detection finds its pane held (`ReplayAgents.AgentsConverge`), every focused pane is held then
  and at the end (`ReplayLayouts.LayoutsConverge`); for the order, nothing held at the end of the prefix is missing on
  the way through it again, and no event of the prefix relists tabs or moves a pane onto its own id
  (`ReplayOrder.WholeMirrorConverges`). The witnesses beside these theorems drop one condition each, and
  `Reorder.UnsettledPayload` the one on relisted tabs.
* **A move can leave an agent out of date.** `movePane` does not refresh an agent already held under the destination id
  when none comes along; `Agreement.MoveAgreed` is the exact condition.

## Model

| member | source | states |
|---|---|---|
| AssocList.PutLookup | herdr/ordered_collection.go:24-32 | after a set, a lookup sees the new value at its id and everything else unchanged; ids stay distinct |
| AssocList.RemoveLookup | herdr/ordered_collection.go:34-40 | after a delete, lookups see everything but that id |
| AssocList.GoneLookup | herdr/ordered_collection.go:44-59 | after a sweep, lookups see exactly the entries that did not match |
| AssocList.FirstWhereIs | herdr/ordered_collection.go:44-59 | the position a sweep reports is that of the first match, and none means that nothing matched |
| AssocList.InsertLookup | herdr/ordered_collection.go:63-79 | after an insert, each listed id has its last listed value, all others theirs, whatever the list repeats |
| AssocList.InsertIds | herdr/ordered_collection.go:63-79 | the ids that were held stay in place; the new ones are one block at the given position |
| AssocList.ResetLookup | herdr/ordered_collection.go:82-88 | after a reset, lookups see the last value listed under each key and nothing else |
| AssocList.ResetValues | herdr/ordered_collection.go:82-88 | resetting from the values of a keyed index gives that index back, order included |
| AssocList.UpdateLookup | herdr/ordered_collection.go:90-94 | an update rewrites every entry and keeps ids and order |
| AssocList.Extensional | herdr/ordered_collection.go:6-9 | the id list and the entry table determine the collection |
| OrderedIndex.OrderedCollection.Represents | herdr/ordered_collection.go:6-9 | distinct ids and their table are a valid collection and stand for exactly one association list |
| OrderedIndex.OrderedCollection.Get | herdr/ordered_collection.go:11-14 | what a lookup in the association list sees |
| OrderedIndex.OrderedCollection.Values | herdr/ordered_collection.go:16-22 | the values in id order |
| OrderedIndex.OrderedCollection.Set | herdr/ordered_collection.go:24-32 | in place: overwrites where the id stands, or appends; the representation stays valid |
| OrderedIndex.OrderedCollection.Delete | herdr/ordered_collection.go:34-40 | in place: takes one id out and keeps the order of the rest |
| OrderedIndex.OrderedCollection.DeleteWhere | herdr/ordered_collection.go:44-59 | in place: takes every match out, keeps the order of the rest, and reports where the first stood |
| OrderedIndex.OrderedCollection.InsertAt | herdr/ordered_collection.go:63-79 | in place: overwrites held ids where they stand and puts the new ones in as a block |
| OrderedIndex.OrderedCollection.Absorb | herdr/ordered_collection.go:63-73 | one pass splits the listed values into overwritten and new, as the reference split does |
| OrderedIndex.OrderedCollection.Reset | herdr/ordered_collection.go:82-88 | in place: the listed values in order, the last one winning for a repeated key |
| OrderedIndex.OrderedCollection.Update | herdr/ordered_collection.go:90-94 | in place: every entry rewritten, ids and order kept |
| SessionCaches.SessionCache.constructor | herdr/session_cache.go:27-35 | a cache built from a snapshot is valid and is the reducer's initial state for it |
| SessionCaches.SessionCache.Apply | herdr/session_cache.go:40-112 | one event changes the five collections in place to exactly what the reducer gives, and keeps them valid |
| SessionCaches.SessionCache.ApplyToPane | herdr/session_cache.go:82-105 | the same for the cases whose subject is a pane |
| SessionCaches.SessionCache.SetPane | herdr/session_cache.go:116-122 | installs a pane and refreshes the agent entry that pane carries |
| SessionCaches.SessionCache.ClosePane | herdr/session_cache.go:124-127 | drops a pane and its agent |
| SessionCaches.SessionCache.MovePane | herdr/session_cache.go:131-153 | containers, rekeying and cascaded closes, in the order of the source |
| SessionCaches.SessionCache.CloseTab | herdr/session_cache.go:157-162 | drops a tab, its layout, and the panes and agents that name it |
| SessionCaches.SessionCache.CloseWorkspace | herdr/session_cache.go:165-171 | drops a workspace and everything that names it |
| SessionCaches.SessionCache.ReorderTabs | herdr/session_cache.go:175-178 | the sweep's index, valid in the swept list, is where the listed tabs go |
| SessionCaches.SessionCache.AgentDetected | herdr/session_cache.go:185-211 | detection, release and final status, with and without a held pane |
| SessionCaches.SessionCache.AgentStatus | herdr/session_cache.go:213-241 | status changes reach the pane and the agent, or the agent alone |
| SessionCaches.SessionCache.FocusPane | herdr/session_cache.go:260-286 | moves the flag on panes and agents and tells the layout of the pane's tab |
| SessionCaches.SessionCache.Snapshot | herdr/session_state.go:79-98 | reads the mirror back as one snapshot, focused ids included |
| Mirror.FromSnapshotWellFormed | herdr/session_cache.go:27-35 | every cache a snapshot builds has distinct ids and every record under its own key, whatever the snapshot repeats |
| Mirror.ApplyWellFormed | herdr/session_cache.go:40-112 | every event keeps that; setPane after get relies on it |
| Mirror.FoldWellFormed | herdr/session_cache.go:40-112 | so does every run of events |
| Mirror.SnapshotRoundTrip | herdr/session_state.go:79-98 | a snapshot of a well-formed mirror rebuilds the very same mirror, order included |
| Focus.SnapshotTellsFocus | herdr/session_state.go:93-109 | a snapshot names the first workspace, tab and pane with the focus among those it lists, and none when none has it |
| Focus.FocusMoves | herdr/session_cache.go:243-264 | a focus event leaves the focus of its kind at its own id when that is held, and nowhere otherwise |
| AgentActions.EventLeaves | herdr/session_cache.go:113-309 | on every pane id, what each event leaves of its agent, field by field: each shared field is the pane's under its own name, the own fields are kept, empty for an agent seen for the first time; a status reaches an agent without a pane by itself; events about others change nothing |
| AgentActions.LeavesOne | herdr/session_cache.go:288-309 | that leaves room for one agent only |
| Replay.EventActs | herdr/session_cache.go:40-112 | on every workspace, tab and pane key, each event is a constant or a patch-unless-dropped of what was there |
| Replay.ThenActs | herdr/session_cache.go:37-39 | two such actions in a row are one |
| Replay.Settles | herdr/session_cache.go:37-39 | every such action, composites included, is idempotent |
| Replay.FoldActs | herdr/session_cache.go:40-112 | a whole list of events is one such action on every key |
| Replay.ReplayConverges | herdr/session_bootstrap.go:17-21 | for every well-formed cache, every list and every prefix of it, the whole list on a cache that folded the prefix ends where folding the list once ends, on all workspace, tab and pane lookups |
| Replay.BootstrapConverges | herdr/session_bootstrap.go:17-42 | a snapshot taken anywhere inside the buffer, and the buffer replayed onto it, reach the workspaces, tabs and panes that the server has, lookup by lookup |
| ReplayAgents.AgentConvergesIff | herdr/session_cache.go:185-241 | for every agreed mirror and every list without moves, a replay gives the agent of a pane back if and only if what the second pass does to it is there already or overwritten later, computed from the mirror before and the list |
| ReplayAgents.AgentsConverge | herdr/session_bootstrap.go:17-21 | from an agreed mirror, when no pane moves, pane ids keep their tab and workspace, and every detection of the prefix finds its pane held, the replay gives every agent as one pass does |
| ReplayAgents.AgentsNeedOneHome | herdr/session_cache.go:164-171 | without the second condition: a workspace closes and a pane is then reported in it |
| ReplayAgents.AgentsNeedNoMoves | herdr/session_cache.go:131-143 | without the first: a pane moves and its old id is reported and detected anew |
| ReplayAgents.AgentsNeedAgreement | herdr/session_cache.go:155-162 | without agreement: an agent in another tab than its pane |
| ReplayAgents.AgentsNeedHeldDetections | herdr/session_cache.go:197-210 | without the third: a detection before the report of its pane |
| ReplayLayouts.LayoutConvergesIff | herdr/session_cache.go:260-286 | for every mirror and every list, a replay gives the layout of a tab back if and only if the second pass leaves the same pane focused in it, or the rest of the list decides it, computed from the mirror before and the list |
| ReplayLayouts.LayoutsConverge | herdr/session_bootstrap.go:17-21 | when pane ids keep their tab and workspace and every pane the prefix focuses is held then and at its end, the replay gives every layout as one pass does |
| ReplayLayouts.LayoutsNeedOneHome | herdr/session_cache.go:271-286 | without the first condition: a pane takes the focus and is then reported in another tab |
| ReplayLayouts.LayoutsNeedHeldFocus | herdr/session_cache.go:277-280 | without a held pane: a focus before the report |
| ReplayLayouts.LayoutsNeedFocusToStay | herdr/session_cache.go:124-127 | without it staying held: two panes take the focus and the second closes |
| ReplayOrder.PrefixInOrder | herdr/ordered_collection.go:24-59 | a list that never misses what is at stake and moves nothing onto itself keeps the relative order of every id held, in all five indexes |
| ReplayOrder.WholeMirrorConverges | herdr/session_bootstrap.go:17-21 | a prefix that meets the conditions on agents, layouts and order changes nothing when replayed, so the whole mirror ends as one pass leaves it, order included, whatever follows the prefix |
| ReplayOrder.BootstrapIsExact | herdr/session_bootstrap.go:17-42 | then a bootstrap ends in the server's very state |
| ReplayOrder.OrderNeedsHeld | herdr/session_cache.go:124-127 | without the condition on the way: a pane is closed and reported again |
| ReplayOrder.OrderNeedsPlain | herdr/session_cache.go:131-143 | without the condition on moves: a pane moves onto its own id |
| Idempotence.ApplyTwice | herdr/session_cache.go:37-112 | any event but tab.moved applied twice leaves all five indexes as once, order included |
| Idempotence.MovePaneTwice | herdr/session_cache.go:131-153 | a pane move applied twice is a pane move applied once, with every combination of containers |
| Idempotence.TabMovedTwice | herdr/session_cache.go:76-77 | tab.moved settles if and only if, by the held tabs and the payload, the listed ids that end up in the workspace stand as one run in listed order |
| Reorder.Placement | herdr/session_cache.go:175-178 | for every payload: the other tabs keep their order, and the new listed ids are one block, deduplicated, where the workspace's first tab stood or at the end |
| Reorder.PlacementWithoutClash | herdr/session_cache.go:175-178 | without a clash the block is the whole deduplicated list |
| Reorder.ReorderLookup | herdr/session_cache.go:175-178 | what lookups see after a reorder |
| Reorder.TwiceIffPlacedInOneRun | herdr/session_cache.go:37-39 | the exact condition for a second application to change nothing, on the held tabs and the payload |
| Reorder.TwiceIffOneRun | herdr/session_cache.go:37-39 | the same told from the order that the first application leaves |
| Reorder.TwiceWithoutClash | herdr/session_cache.go:37-39 | without a clash, that condition is about the payload alone |
| Reorder.TwiceWithOwnTabs | herdr/session_cache.go:37-39 | the documented payload, every tab in the event's workspace, always settles |
| Reorder.UnsettledPayload | herdr/session_cache.go:175-178 | a payload that does not |
| Moves.MovePaneIs | herdr/session_cache.go:131-153 | a move is: containers set, pane and agent rekeyed, then one filter per index |
| Agreement.MoveAgreed | herdr/session_cache.go:131-153 | a move keeps agents in agreement with their panes, field by field, if and only if it finds an agent to carry, or none at the destination, or one that agrees or is closed with its container |
| Agreement.ApplyAgreed | herdr/session_cache.go:40-112 | every other event keeps it unconditionally |
| Agreement.FoldAgreed | herdr/session_cache.go:40-112 | agreement over whole runs whose moves meet that condition |
| Cascade.CloseWorkspaceIsTransitive | herdr/session_cache.go:164-171 | under the hierarchy, one pass over each index's own workspace field removes exactly the transitive contents and keeps the rest in order |
| Cascade.CloseWorkspaceHierarchy | herdr/session_cache.go:164-171 | closing a workspace keeps the hierarchy |
| Cascade.CloseTabExact | herdr/session_cache.go:155-162 | closing a tab removes exactly it and what it holds, keeps the rest unchanged and in order, and keeps the hierarchy |
| Cascade.CloseWorkspaceTabByTab | herdr/session_cache.go:155-171 | closing a workspace is closing its tabs, in any order and with any repetition, and dropping it |
| Cascade.MovedPaneSurvives | herdr/session_cache.go:144-152 | a moved pane survives if and only if it lands in none of the closed containers |
| Naturality.ApplyNatural | herdr/session_cache.go:40-112 | replacing label maps and layouts before an event or after it gives the same mirror: the reducer moves them but never looks inside or changes one |
| Naturality.FromSnapshotNatural | herdr/session_cache.go:27-35 | the same for building a mirror |
| Ownership.ReceivedFresh | herdr/session_cache.go:40-122 | what each branch stores, cloned or cloned again, has only new addresses, and the mirror takes it for what the event meant |
| Ownership.ApplyIn | herdr/session_cache.go:40-112 | an event leaves in the mirror only addresses that were there or came with it |
| Ownership.RunIsolated | herdr/session_state.go:25-98 | over every run of bootstraps, events, reads and arbitrary caller writes, mirror and callers reach no common address, and the mirror means what the pure reducer gives |
| Ownership.ReadsAreCurrent | herdr/session_state.go:25-98 | each accessor returns what the mirror means, in addresses that nobody had before |
| Ownership.AccessorFinds | herdr/session_state.go:25-98 | what each accessor finds: the records of its index in order, or the one under the id asked for |
| Ownership.CallersKeepTheirs | herdr/session.go:30-32 | a caller's write is seen in what callers hold, and nothing the mirror does, events and reads included, changes what callers hold |
| StreamProtocol.LinesConserved | herdr/session_bootstrap.go:44-78 | in every interleaving, the buffered events followed by those of later calls are the stream's event lines in order, none lost or repeated; a close loses at most the line in the reader's hand |
| StreamProtocol.CauseSurvives | herdr/stream.go:143-161 | the cause of the end, once received by any call, even a cancelled one, is the first, never changes, and is what every later call reports |
| StreamProtocol.EndHasCause | herdr/stream.go:93-131 | an end without a cause means that the client closed the stream |
| StreamCalls.BootstrapOutcome | herdr/session_bootstrap.go:22-78 | in every interleaving a bootstrap succeeds if and only if the snapshot was answered and the collector's calls returned events and then, stopped, the end of their context; otherwise the stream is closed |
| StreamCalls.NothingSwallowed | herdr/session_bootstrap.go:50-70 | a bootstrap that met a malformed line does not succeed |
| StreamCalls.LinesAnswered | herdr/stream.go:93-131 | the calls, the collector's first, answer the lines taken one by one: an event returned, a malformed line one decoding error |
| StreamCalls.ReaderHandsOver | herdr/stream.go:64-84 | the reader hands over, in order, the lines it read and then its one error, and stops; it gives up only on a closed stream, and a stream is closed only by a close or a failed bootstrap |
| StreamCalls.CallTakes | herdr/stream.go:93-131 | an undisturbed call returns the line offered to it, or ends the stream with the first cause |
| StreamCalls.CallEnds | herdr/stream.go:93-131 | a call on a closed stream, or one whose reader is gone, reports the end with the remembered cause |
| StreamCalls.CallCancelled | herdr/stream.go:88-104 | a call whose context ends while it waits returns that and leaves the stream as it was |
| StreamCalls.CloseWakes | herdr/stream.go:133-141 | a close wakes a waiting call, which reports the end |
| StreamCalls.CollectorStops | herdr/session_bootstrap.go:72-78 | a collector stopped between two events lets its bootstrap end as the snapshot did, with what was buffered or with a closed stream |
| StreamCalls.ReportIsSo | herdr/stream.go:93-161 | a call reports the end of its context, of the stream, or a malformed line only when that is so |
| SessionProtocol.NoStreamLeaks | herdr/session.go:191-209 | in every interleaving each opened stream is the session's, held for closing by exactly one of Next and Close, or closed once; when both have returned none is open |
| SessionProtocol.StepOwned | herdr/session.go:270-305 | every step keeps one owner per open stream |
| SessionProtocol.StepCounted | herdr/session_bootstrap.go:22-42 | every stream ever opened is open or was closed exactly once, failed bootstraps included |
| SessionProtocol.ResyncGrammar | herdr/session.go:149-189 | what was returned, followed by what is queued, is the lines of each stream in order with exactly one resync between two streams, carrying the error that ended the first |
| SessionProtocol.MirrorRefines | herdr/session.go:212-219 | after every step the mirror is the fold, over the current stream's snapshot, of the decodable events consumed from that stream |
| SessionProtocol.CauseKept | herdr/session.go:223-248 | the remembered cause is kept across calls that give up, until a reconnect is installed |
| SessionProtocol.BootFailure | herdr/session.go:228-240 | an unavailable server makes the call wait and try again; an error response or an unexpected result ends it; the attempt's stream is closed and nothing else changes |
| SessionProtocol.FailuresExplained | herdr/session.go:149-189 | over every run a call ends with an error if and only if it met a final bootstrap error, the end of its context, a close or a failed read |
| SessionCalls.NextReturns | herdr/session.go:149-174 | an undisturbed call returns the queued resync first, then the queued lines in order, then the stream's, each applied to the mirror before |
| SessionCalls.NextReconnects | herdr/session.go:149-248 | one call that loses its stream, fails to reconnect any number of times in any retryable way and then succeeds returns one resync with the error that ended the stream, has closed every stream but the new one, and leaves the new mirror with the buffer queued |
| SessionCalls.NextGivesUp | herdr/session.go:163-171 | a call on a closed session, or whose context ends while it waits, fails and leaves the rest |
| SessionCalls.LateBootRefused | herdr/session.go:237-240 | a bootstrap that outlives the session is not installed and its stream is closed |
| SessionCalls.CloseCloses | herdr/session.go:193-209 | Close closes the session's stream and leaves the rest |
| SessionProtocol.MirrorMatchesServer | herdr/session_bootstrap.go:17-21 | protocol and reducer together: once the consumed lines are the server's events, the mirror has the workspaces, tabs and panes of the server under every id, and is the server's state when the events before the snapshot settle |
| SessionStreams.StepInv | herdr/session.go:149-219 | a session and its streams, each taking its own steps, stay tied: every epoch has what its stream delivered, every read is answered by the stream held, and only an owner closes it |
| SessionStreams.EveryStepIsPossible | herdr/session.go:149-189 | nothing that the session or a stream can do alone is lost when they run together |
| SessionStreams.AnswerReaches | herdr/session.go:174-187 | what the session does with the answer to its read: a line is returned, only the end of the stream makes it drop the stream, and anything else fails the call alone |
| SessionStreams.EndIsTold | herdr/stream.go:153-169 | no two ends of a stream look alike to the session, and only an end without an error looks like a plain close |
| SessionStreams.ToldFromTheWire | herdr/session.go:149-189 | in every interleaving of a session with its streams, what callers are told is, stream by stream, the event lines taken from the wire, in order, with one resync between two streams that carries the first cause the earlier one ended with; it is never missing |
| SessionStreams.MirrorFromTheWire | herdr/session.go:212-219 | the mirror is the fold of what an initial part of the event lines on the last stream's wire decodes to, over the snapshot |
| SessionStreams.MirrorSeesServer | herdr/session_bootstrap.go:17-42 | once every event line on the wire has been consumed, the mirror has the workspaces, tabs and panes of the server that wrote them, and is its very state when the events before the snapshot settle |
| Connection.ClosedByItsOwner | herdr/client.go:126-163 | in every interleaving with the context ending, a dialed connection is closed exactly once when opening fails, and otherwise only by the caller it was transferred to |
| Connection.TransferIsFinal | herdr/client.go:257-275 | after the transfer no cancellation of the opening context can close it |
| Connection.StepInv | herdr/dial.go:31-71 | the dial's own failures and the once flag keep the count |
| Connection.OutcomeIsEarned | herdr/client.go:126-163 | in every interleaving opening fails if and only if encoding, dialing, writing, reading or decoding failed, the dialer gave no connection, or a context had ended when it was looked at; when it succeeds its steps were those of a good exchange, each once and in order |
| Connection.CancelUnblocks | herdr/client.go:257-275 | when the opening context ends while a write or a read is blocked, the watcher closes the connection under it |
| Connection.OpeningEnds | herdr/client.go:126-163 | opening takes at most ten steps of its own |
| Connection.NeverStuck | herdr/client.go:126-163 | until it returns, opening or the watcher it waits for has a step to take |
| Connection.LateConnection | herdr/dial.go:47-58 | a connection that arrives after the dial's deadline is closed |
| TypeGraph.CycleSurvives | internal/gen/ir.go:306-315 | a subgraph that keeps every edge lying on a cycle keeps every cycle |
| TypeGraph.EvolvedEdges | internal/gen/ir.go:297-300 | boxing only removes value edges and never a required one |
| TypeGraph.BoxCloses | internal/gen/ir.go:285-305 | each round leaves strictly fewer optional value edges, so the rounds end |
| TypeGraph.SettledCycles | internal/gen/ir.go:306-315 | when no optional field is on a cycle any more, the value graph has a cycle if and only if the required fields have one |
| TypeGraph.FieldChange | internal/gen/ir.go:297-300 | a changed field is a pointer to what it was, in its value type and in the Go type emitted for it, and was optional and on a cycle |
| TypeGraph.EmittedIs | internal/gen/ir.go:253-263 | the value graph read off the emitted Go types alone is the one the pass works on |
| BreakCycles.EdgeTable | internal/gen/ir.go:253-263 | the table lists exactly the value edges between structs |
| BreakCycles.Reaches | internal/gen/ir.go:264-283 | the search with its seen set finds the target if and only if there is a path |
| BreakCycles.Visit | internal/gen/ir.go:266-281 | a failed visit leaves a seen set closed under edges, which is why cutting at seen names loses nothing |
| BreakCycles.FindCycle | internal/gen/ir.go:307-315 | finds an edge that closes a cycle if and only if there is one |
| BreakCycles.BoxOne | internal/gen/ir.go:287-305 | boxes, in place, the first optional field that is on a cycle, or shows that there is none |
| BreakCycles.BreakOptionalStructCycles | internal/gen/ir.go:245-318 | terminates; fails if and only if the input has a cycle of required fields alone; otherwise leaves an acyclic value graph, as it is read off the emitted Go types too; boxes only optional fields that lay on a cycle of the input |
| CopyCorrect.NoReferences | internal/gen/emit_clone.go:137-151 | a type that needs no clone holds no reference: its values mean the same in every heap |
| CopyCorrect.NeedsCloneIs | internal/gen/emit_clone.go:137-151 | exactly scalars and enums, in Optionals or not, are left to the assignment |
| CopyCorrect.ZeroIsTyped | internal/gen/emit_clone.go:165-220 | a new variable or cell starts as the zero of its type |
| CopyCorrect.AssignOk | internal/gen/emit_clone.go:153-221 | for every supported type and acyclic value, running the emitted statements writes the copy to the destination, made of new cells only, and touches nothing else |
| CopyCorrect.IdentOk | internal/gen/emit_clone.go:155-164 | the same for named types: scalars, enums, structs, hand-written types and unions |
| CopyCorrect.PointerOk | internal/gen/emit_clone.go:165-169 | the same for pointers, nil kept |
| CopyCorrect.SliceOk | internal/gen/emit_clone.go:170-182 | the same for slices copied element by element |
| CopyCorrect.FlatOk | internal/gen/emit_clone.go:170-177 | the same for slices copied at once, and for raw messages |
| CopyCorrect.MapOk | internal/gen/emit_clone.go:183-199 | the same for maps, whatever order each range over one goes in |
| CopyCorrect.LoopMapOk | internal/gen/emit_clone.go:190-199 | the loop over any list of keys that covers those not copied yet completes the copy |
| CopyCorrect.OptionalOk | internal/gen/emit_clone.go:208-220 | the same for Optional: present values copied, absent kept, null kept only where the destination already held it |
| CopyCorrect.VariantOk | internal/gen/emit_clone.go:290-312 | a union keeps its dynamic form: nil, value, pointer, typed nil pointer |
| CopyCorrect.MethodOk | internal/gen/emit_clone.go:118-135 | Clone of a struct: fields that need no clone are shared safely by the initial copy, the others are copied in order |
| DeepCopy.SomeDepth | internal/gen/emit_clone.go:118-135 | every acyclic value is copied within some depth of calls |
| DeepCopy.CloneIsDeepCopy | internal/gen/emit_clone.go:118-135 | Clone never panics, changes no existing cell, and every slice, map and pointer of its result is newly allocated |
| DeepCopy.CloneIsIsolated | internal/gen/emit_clone.go:118-135 | whatever is later written to one of the two, the other keeps its value |
| DeepCopy.ExactIffNoNullLost | internal/gen/emit_clone.go:208-220 | the copy equals the original if and only if no explicit null stands where the copy starts from a fresh zero |
| DeepCopy.ExactIffSafeSchema | internal/gen/emit_clone.go:137-221 | all values of all fields are copied exactly if and only if no copied field type has an Optional in such a position |
| DeepCopy.LostNull | internal/gen/emit_clone.go:165-220 | a run, on a type the emitter supports but the generator never builds, in which a null behind a pointer comes out absent |
| FieldTypes.FieldsAreGenerated | internal/gen/ir.go:603-641 | every field type built from a schema node has an Optional outermost or not at all |
| FieldTypes.FieldSpells | internal/gen/ir.go:603-641 | a field's type spells its schema: a pointer exactly where null is admitted and has no nil of its own, at every depth; Optional around the bare type when the field is optional |
| FieldTypes.NullHasItsPlace | internal/gen/ir.go:666-773 | a required field has a nil if and only if its schema admits null or its type has one anyway; an optional field tells absent, null and present apart |
| FieldTypes.GeneratedIsSafe | internal/gen/emit_clone.go:137-221 | a package of such fields has no Optional where a null can be lost |
| FieldTypes.GeneratedClonesAreExact | internal/gen/emit_clone.go:118-135 | Clone of a generated struct has the shape of the original, nulls and nils included, in new cells only |
| CloneEmitters.CloneEmitter.Visit | internal/gen/emit_clone.go:38-64 | one visit marks names and follows what their declarations refer to, accepts every field of the structs it marks or some struct is refused for a type or a field called Clone, and records the unions their fields name |
| CloneEmitters.CloneEmitter.VisitExpr | internal/gen/emit_clone.go:66-116 | the same from a field type |
| CloneEmitters.CloneEmitter.VisitAll | internal/gen/emit_clone.go:11-28 | validation succeeds if and only if every struct field is supported and none is called Clone, and then the recorded unions are exactly those some field names, on cyclic types too |
| CopyCompiler.AcceptsByLeaf | internal/gen/emit_clone.go:66-116 | a field type is supported if and only if it is built around a raw message or the name of a scalar, a hand-written or a declared type |
| CopyCompiler.ScalarsAre | internal/gen/emit_clone.go:228-238 | the scalars are the integers of every width, the floats, the complex numbers and the other basic types |
| CloneEmitters.CloneEmitter.Variable | internal/gen/emit_clone.go:223-226 | a name not used before in the method |
| CloneEmitters.CloneEmitter.AssignCode | internal/gen/emit_clone.go:153-221 | emission with the running counter gives the statements that the correctness theorem is about |
| CloneEmitters.CloneEmitter.MethodCode | internal/gen/emit_clone.go:118-135 | the statements of one method, in field order, from a fresh counter |
| CloneEmitters.CallsAreEmitted | internal/gen/emit_clone.go:290-296 | every union clone function that a method calls is one that validation recorded for emission |
| RustScanner.StringEndIs | internal/cmd/herdrsource/rust.go:539-549 | a string ends at its first quote with an even run of backslashes before it, or with the text |
| RustScanner.CommentEnds | internal/cmd/herdrsource/rust.go:509-527 | a block comment ends at the first place where as many levels are closed as opened, or with the text |
| RustScanner.RawEndIs | internal/cmd/herdrsource/rust.go:552-567 | an r opens a raw string if and only if hashes and a quote follow; it ends past the first quote with as many hashes, or with the text |
| RustScanner.CharEndIs | internal/cmd/herdrsource/rust.go:571-585 | an apostrophe opens a literal if and only if one near enough can close it, and the literal ends past the first that can; otherwise it is a lifetime |
| RustScanner.SkipIs | internal/cmd/herdrsource/rust.go:501-537 | something is skipped if and only if a comment, string, raw string or character literal opens there, and it is skipped to where its kind ends |
| RustScanner.SkipString | internal/cmd/herdrsource/rust.go:539-549 | the loop finds that end |
| RustScanner.SkipComment | internal/cmd/herdrsource/rust.go:509-527 | the loop over a nested block comment stops where as many levels are closed as opened |
| RustScanner.SkipRawString | internal/cmd/herdrsource/rust.go:552-567 | the loop succeeds if and only if a raw string opens, and stops past the first quote with its hashes |
| RustScanner.SkipChar | internal/cmd/herdrsource/rust.go:571-585 | the loop stops past the first apostrophe that can close the literal, and fails only when none can |
| RustScanner.Skip | internal/cmd/herdrsource/rust.go:501-537 | whenever something is skipped the position advances and stays within the text |
| RustScanner.SkipNonCode | internal/cmd/herdrsource/rust.go:501-537 | skips if and only if something that is not code opens, to where that kind ends |
| RustScanner.CloseMatches | internal/cmd/herdrsource/rust.go:477-499 | the scan stops at the first code position where the depth returns to zero, positive at all earlier ones, if there is one |
| RustScanner.MatchesOnce | internal/cmd/herdrsource/rust.go:477-499 | that position is unique |
| RustScanner.Balanced | internal/cmd/herdrsource/rust.go:477-499 | returns the contents up to that position and the index just past it, and fails only when there is none |
| RustScanner.ArmEndEnds | internal/cmd/herdrsource/rust.go:437-460 | the scan of an arm stops at the first code position outside every group with a comma or a close |
| RustScanner.UntilArmComma | internal/cmd/herdrsource/rust.go:437-460 | returns the expression up to that position, and fails only when there is none |
| RustScanner.NextTestIs | internal/cmd/herdrsource/rust.go:65-84 | a blanked region runs from the first marker to the close of the first block after it |
| RustScanner.NoNextTest | internal/cmd/herdrsource/rust.go:65-77 | there is no further region if and only if no marker is left, no block follows the next one, or that block never closes |
| RustScanner.Split | internal/cmd/herdrsource/rust.go:52-86 | the buffer blanked in place is the view, byte for byte |
| RustScanner.ViewsAreComplementary | internal/cmd/herdrsource/rust.go:44-50 | every position survives in exactly one view and is blanked in the other; newlines stay in both |
| RustScanner.SameLines | internal/cmd/herdrsource/rust.go:588-590 | a line number taken in either view is that of the file |
| RustScanner.LineAtCounts | internal/cmd/herdrsource/rust.go:588-590 | a line number is one more than the newlines before the position |
| LayeredSearch.NextNames | internal/cmd/herdrsource/rust.go:272-302 | expanding only the newest layer reaches exactly the names within one more call, on cyclic graphs too |
| LayeredSearch.EmptyForGood | internal/cmd/herdrsource/rust.go:273-273 | beyond an empty layer there is nothing |
| LayeredSearch.FollowCalls | internal/cmd/herdrsource/rust.go:284-293 | unvisited names are marked and their bodies join the next layer |
| LayeredSearch.ScanLayer | internal/cmd/herdrsource/rust.go:274-294 | the responses of one layer and the layer after it |
| LayeredSearch.SearchFrom | internal/cmd/herdrsource/rust.go:270-303 | exactly the responses at the least call distance below the limit at which there is any, and none if there is no such layer |
| LayeredSearch.WithinThreeCalls | internal/cmd/herdrsource/rust.go:194-197 | a dispatch answers if and only if some body at most three calls away does |
| LayeredSearch.FindingSays | internal/cmd/herdrsource/rust.go:277-284 | a finding is a response of the dispatch itself, through nothing, or of the body it names and places |
| LayeredSearch.SortedIs | internal/cmd/herdrsource/rust.go:307-312 | sorting keeps the findings and puts them in strictly ascending order of variant and place |
| LayeredSearch.ReportIsCanonical | internal/cmd/herdrsource/rust.go:254-314 | the report has the same variants at the same places in the same order, whatever order the dispatch points are searched in |
| LayeredSearch.ResultsFor | internal/cmd/herdrsource/rust.go:254-314 | exactly the findings of all dispatch points, each variant and place once, in ascending order, and the reason when there is none |

## Left out

- SessionStreams.MirrorSeesServer: that the lines on a wire are the events that the server applied, in order, from the snapshot's prefix on, is its hypothesis; the server itself is not modelled.
- SessionProtocol.ResyncGrammar: says nothing about results that carry an error, which `Next` may return any number of times in between; an undecodable line counts as a line.
- ReplayAgents.AgentConvergesIff: says nothing about lists with a `pane.moved`, whose agents can follow a pane from id to id; `ReplayAgents.AgentsNeedNoMoves` is a list that diverges.
- ReplayOrder.WholeMirrorConverges: its conditions suffice but are not exact; a prefix with a `tab.moved` is outside it, though some such prefixes replay without harm.
- BreakCycles.BreakOptionalStructCycles: the pair of names in the error is some required edge on a cycle; which one depends on the order in which a map is ranged over.
- Ownership.RunIsolated: a clone gives every address of a record a fresh copy but keeps two records that shared one sharing it.
- CopyCorrect.AssignOk: a hand-written type is copied by its own Clone, which is opaque here; values that reach themselves through pointers are outside the theorem, as Clone would not return on them.
- LayeredSearch.ResultsFor: responses and calls of a body, dispatch points and the function index are inputs, because regular expressions find them; sorting is by insertion, where the source calls the sort of its library.
- RustScanner.Balanced: works on characters where the source works on bytes; the marker and the delimiters are plain ASCII.
- In the value model, mutable fields that hold nested records without references (agent session, worktree, scroll) are strings, numbers are unbounded naturals, and the events that the reducer treats alike share a constructor.
- Locks: the mirror's read-write lock makes each apply and each read one step.
- The text that the emitter prints for each statement, and the field types that do not parse.
- Decoding of events and results, JSON and TOML: decoding is a partial function given as a parameter.
- Real time: the doubling of the reconnect delay and its limit; a wait ends by timer, context or close.
- Sockets, named pipes, dialers and framing of lines: a line, a read error and an end of file are inputs.
- Error texts and operation tags, except those that branches test.
- The plugin registry, manifests, dispatch and exit codes, test servers, examples and terminal rendering.
- Schema parsing, naming, other emitted text and report formatting.
