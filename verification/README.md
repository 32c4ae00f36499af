# kayak-lab: a verified model of the agent runtime's state machines and graph algorithms

kayak-lab is an event-sourced agent runtime. This project models the parts of it whose
correctness is a matter of logic rather than of I/O, and proves what they are for:

- the provenance graph, which must stay acyclic while it is built edge by edge, the agent
  loop that builds it, and the causal graph of a session's events with its chains;
- ordered delivery to WebSocket clients through a reorder buffer and a bounded send queue,
  and replay after a reconnect;
- the event stream with its session manager, re-entrant subscribers and bridged store, and
  the persistent store with its snapshots and its recovery;
- the context window of the agent, positional and score based, and the token budget;
- the circuit breaker, the token bucket, the newline framing of the stdio transport, the
  inheritance of agent profiles, and the bracketing of tool executions in the log.

Code that changes things in place is modelled by classes and methods with loops, each proved
against a specification function or an outright property; what the source promises is then
proved about these specifications, for all inputs and all runs. `dafny verify dfyconfig.toml`
checks everything.

## Conventions

- Identifiers (UUIDs) are numbers of which only equality matters; a new one is any number not
  in use. Clocks are integers handed in by the caller; where order matters they do not go back.
- JSON is an injective encoding: a serialized graph is a record of lists, a log line is an event
  or text that does not parse.
- Exceptions are result values (`AddEdgeResult`, `Outcome`, `threw`). A JavaScript `Map` whose
  iteration order matters is `OrderedMaps.OrderedMap`; where it does not, it is a `map`.
- Calls into code that is not modelled (models, tools, sockets, subscribers, callbacks) are
  inputs that say how the callee behaves, or nondeterministic methods.

## Files

| file | models |
|---|---|
| Graphs.dfy | walks, reachability, acyclicity, and what every BFS of the program keeps |
| ProvenanceGraph.dfy | src/provenance/graph.ts |
| AgentProvenance.dfy | graph building in src/runtime/agent-runtime.ts |
| CausalGraph.dfy, ChainLaws.dfy | src/store/causal-graph.ts |
| MessageClassifier.dfy | src/memory/message-classifier.ts |
| ContextManager.dfy, StableSorting.dfy | the context managers of src/runtime/agent-runtime.ts and src/memory/provenance-context.ts |
| TokenBudget.dfy | `enforceBudget` of src/memory/provenance-context.ts |
| BoundedQueue.dfy | src/core/bounded-queue.ts |
| Reordering.dfy, Resubscription.dfy, ProjectionClient.dfy, ProjectionServer.dfy | src/projection/websocket-server.ts |
| EventLogs.dfy, Deliveries.dfy, EventSourcing.dfy | src/core/event-stream.ts, src/core/session-manager.ts, the bridge of src/store/event-store.ts |
| Persistence.dfy | src/store/persistence.ts |
| BridgedRecovery.dfy | the bridge of src/store/event-store.ts into the store of src/store/persistence.ts |
| CircuitBreaker.dfy, TokenBucket.dfy | src/core/circuit-breaker.ts, src/core/rate-limiter.ts |
| LineFraming.dfy | the read loop of src/mcp/transport.ts |
| Profiles.dfy | src/runtime/profile-registry.ts, src/runtime/spawn-config.ts |
| ToolBracketing.dfy | tool executions in src/runtime/agent-runtime.ts |
| ToolPerformance.dfy, SessionAnalysis.dfy | what src/store/query-engine.ts and src/analysis.ts make of them |
| FreshIds.dfy, Optional.dfy, OrderedMaps.dfy, Sequences.dfy | shared vocabulary |

## Where the code differs from what it says

The model follows the code. Each of these is proved, with the exact condition under which the
expected property holds.

- src/store/causal-graph.ts:93 promises connected components. Chains are what a directed BFS
  from the roots finds; they are the components if and only if every event is reached from
  exactly one root (`ChainLaws.ChainsAreComponentsIff`).
- `fromJSON` does not look for cycles (src/provenance/graph.ts:212), so loaded data may give a
  cyclic graph (`ProvenanceGraphs.LoadedAcyclicIff`, `LoadedGraphMayBeCyclic`).
- With a limit of one message, `slice(-(maxMessages - 1))` keeps everything and the context
  exceeds its limit (`ContextManagers.TrimWithinLimitIff`, `LimitOneGrows`).
- The goal pass of `enforceBudget` does not look for repetitions. The result repeats nothing
  exactly when no system message object is given twice and no goal message already taken still
  fits when it is met again (`TokenBudgets.AllocationDistinctIff`).
- `isDeadEnd` starts its search at the node itself, so it agrees with "no subsequent commitments
  or verifications" exactly when the node is neither or one follows it
  (`MessageClassifiers.MessageClassifier.IsDeadEnd`, `LoneCommitmentIsNoDeadEnd`).
- An event-type filter, a repeated event, or a rejecting send queue stops a client's session
  (`Reordering.FilterTruncates`, `StaleIff`; `ProjectionClients.RejectResumesIff`,
  `FullQueueLosesEvent`), and a client that subscribes late, or switches away and back, waits for
  number 1 (`ProjectionClients.LateSubscriberIff`).
- A subscription to other event types does not look at what is buffered. An event that the old
  types admitted is released although the new ones do not list it; that cannot happen exactly
  when all events buffered before the first repeated number are listed, or the session is
  blocked, or nothing is listed (`Resubscriptions.StaysListedIff`, `BufferedTypeSlipsThrough`).
- Nothing catches what a subscriber of the event stream throws, so one that is called before the
  store bridge keeps the event from the store, and one that appends to the session in delivery
  changes the store's order. The store equals the stream exactly when neither happens
  (`Deliveries.StoreFollowsIff`, `EarlyThrowLosesEvent`, `EventSourcing.Runtime.ExecAll`). A
  restart of the persistent store repairs the order but not the loss: it restores the stream
  exactly when no such subscriber threw (`BridgedRecovery.RestartRestoresStreamIff`).
- A snapshot taken after a recovery that left nothing in memory records sequence number 0, and
  the next restart brings every event back. A restart preserves what clients see exactly when the
  last snapshot or restart was not such a snapshot (`Persistence.RestartPreservesViewIff`,
  `EmptySnapshotResurrects`).
- The token bucket's initial tokens are not held to its capacity, and every run stays in range
  exactly when they are within it (`TokenBuckets.TokensInRangeIff`, `OverfullBucketExceeds`). Nor
  are the circuit breaker's options checked (`CircuitBreakers.CountsBoundedIff`).
- A line that is not JSON makes the stdio transport emit an error, which throws when nobody
  listens and ends its read loop: the messages behind it are lost, and what stays in the buffer
  depends on how the text came in chunks, unless only newlines follow
  (`LineFraming.SentIsReceivedIff`, `ResidueIff`, `BadLineEndsTheLoop`).
- A profile property that is present but undefined hides the parent's value
  (`Profiles.InheritsNearestValueIff`).
- A tool start stays without an outcome when the `onToolResult` callback throws, a subscriber of
  the event stream throws on the start, or the session is stopped while the tool runs
  (`ToolBracketing.BracketedIff`, `ThrowingSubscriberLeavesStartOpen`,
  `StoppingLeavesStartOpen`). `analyzeSessions` then pairs the start with a later run's
  outcome (`SessionAnalysis.SessionPairingIsOwnIff`) and counts a later failure once more
  (`SessionAnalysis.AllRunsAreUnknown`). It looks for `command` or `tool` in payloads that hold
  `tool_name`, so it files every call under "unknown" (`SessionAnalysis.OneRowForAllSessions`).

## Model

| member | source | states |
|---|---|---|
| `Graphs.AcyclicExtension` | src/provenance/graph.ts:64-89 | adding an edge to an acyclic graph keeps it acyclic exactly when its target does not already reach its source: the reason the cycle check of `addEdge` is the right one |
| `Graphs.SearchExpand` | src/provenance/graph.ts:94-112 | one BFS round: dequeuing an unseen node and queueing at least its unseen successors keeps the search invariant and shrinks what is left to see |
| `Graphs.SearchDone` | src/provenance/graph.ts:94-112 | when the queue is empty, the visited set is exactly what the start reaches (beyond what earlier searches visited) |
| `ProvenanceGraphs.ProvenanceGraph.AddNode` | src/provenance/graph.ts:48-62 | a node with a new id is added last; edges, arcs and other nodes stay |
| `ProvenanceGraphs.ProvenanceGraph.AddEdge` | src/provenance/graph.ts:64-89 | the outcome in the order of the checks; a refused edge changes nothing, an accepted one adds exactly its arc; acyclicity is kept, and between existing nodes an acyclic graph accepts exactly the edges that keep it acyclic |
| `ProvenanceGraphs.ProvenanceGraph.CanReach` | src/provenance/graph.ts:94-112 | the BFS ends and answers true exactly when a path exists |
| `ProvenanceGraphs.ProvenanceGraph.GetReachable` | src/provenance/graph.ts:153-180 | each node of the reflexive-transitive closure exactly once; nothing for an unknown id |
| `ProvenanceGraphs.ProvenanceGraph.GetParents` | src/provenance/graph.ts:136-150 | the sources of the incoming edges, one entry per edge, in edge order; as a set, exactly the nodes with an arc into the node |
| `ProvenanceGraphs.IncomingNodes` | src/provenance/graph.ts:136-150 | the nodes `getParents` collects are exactly the sources of arcs into the node |
| `ProvenanceGraphs.ProvenanceGraph.FromJSON` | src/provenance/graph.ts:207-230 | the loops build the nodes in order, then file every edge whose endpoints are known under its source |
| `ProvenanceGraphs.SerializationRoundTrip` | src/provenance/graph.ts:198-230 | loading what `toJSON` wrote gives the same node map and the same edge lists per source, in the same iteration order |
| `ProvenanceGraphs.ProvenanceGraph.Reload` | src/provenance/graph.ts:198-230 | saving and loading gives an equal graph, hence the same reachability answers and acyclicity |
| `ProvenanceGraphs.LoadEdgesArcs` | src/provenance/graph.ts:212-229 | loading arbitrary data adds exactly one arc for each edge with two known endpoints |
| `ProvenanceGraphs.LoadedAcyclicIff` | src/provenance/graph.ts:207-230 | the loaded graph is acyclic exactly when the data's edges between known nodes are |
| `ProvenanceGraphs.LoadedGraphMayBeCyclic` | src/provenance/graph.ts:207-230 | there is data from which `fromJSON` builds a cyclic graph |
| `AgentProvenance.Progress.GrowValid` | src/runtime/agent-runtime.ts:523-571 | adding a node below its causal parents keeps everything known about one input's graph: parents match, everything is below the goal, the work lies on one chain, no cycle arises |
| `AgentProvenance.Progress.GoalReachesExactly` | src/runtime/agent-runtime.ts:364-372 | an input's goal reaches exactly the nodes created for this input |
| `AgentProvenance.Progress.EarlierNodesUnaffected` | src/runtime/agent-runtime.ts:523-571 | nodes of earlier inputs reach after an input exactly what they reached before |
| `AgentProvenance.AcyclicWithSink` | src/runtime/agent-runtime.ts:553-567 | arcs into a node that nothing leaves cannot close a cycle, however many parents a patch proposal has |
| `AgentProvenance.AgentRuntime.ProcessInput` | src/runtime/agent-runtime.ts:350-383 | from any valid graph and any replies: no `addEdge` throws; the loop ends at the limit, the first exception or the first reply without tool calls; turn by turn the log has one node per call, of its class, below the latest commitment or verification (else the latest patch proposal or the goal), and a patch proposal exactly when some call is a commitment or a verification, whose `causal_parents` are exactly these, in order; every node has its `causal_parents` as graph parents and is below the goal, and all but the explorations lie on one forward chain; acyclicity is kept |
| `AgentProvenance.AgentRuntime.RunLoop` | src/runtime/agent-runtime.ts:452-615 | the loop over model replies: when it ends and with what, the turns it logs, and the invariant over all of them |
| `AgentProvenance.AgentRuntime.RecordTurn` | src/runtime/agent-runtime.ts:523-571 | one turn: a node per tool call, of its class and below the latest commitment or verification, and exactly one patch proposal, if and only if some call is a commitment or a verification, with exactly these as parents in order |
| `AgentProvenance.AgentRuntime.Attach` | src/runtime/agent-runtime.ts:530-544 | a node and one edge from each of its causal parents, none of which is refused |
| `CausalGraphs.BuildCausalGraph` | src/store/causal-graph.ts:28-50 | each id maps to the last event with this id and to its children, one entry per causal link between events of the list |
| `CausalGraphs.ChildrenAreArcs` | src/store/causal-graph.ts:38-48 | the children of a node are exactly the events naming it as a parent |
| `CausalGraphs.FindDownstream` | src/store/causal-graph.ts:60-89 | exactly the events reachable from the start, without the start, each once |
| `CausalGraphs.FindIndependentChains` | src/store/causal-graph.ts:95-140 | chains that start at the roots in order, each holding what its root reaches and no earlier chain holds; together exactly what the roots reach |
| `CausalGraphs.ChainsDisjoint` | src/store/causal-graph.ts:95-140 | no event is in two chains |
| `CausalGraphs.RootNotReached` | src/store/causal-graph.ts:107-113 | with unique ids no root is swallowed by an earlier root's chain |
| `ChainLaws.ClimbToRoot` | src/store/causal-graph.ts:95-105 | in an acyclic log every event is reached from some root |
| `ChainLaws.AcyclicChainsCoverEvents` | src/store/causal-graph.ts:91-140 | without causal cycles every event is in a chain |
| `ChainLaws.ChainsHoldEvents` | src/store/causal-graph.ts:91-140 | the chains hold nothing but events |
| `ChainLaws.PrecedenceIsAcyclic` | src/store/causal-graph.ts:28-50 | a log in which parents precede their children is acyclic |
| `ChainLaws.ChainsAreComponentsIff` | src/store/causal-graph.ts:91-140 | the chains are the weakly connected components if and only if each event is reached from exactly one root |
| `ChainLaws.ForestChainsAreComponents` | src/store/causal-graph.ts:91-140 | with at most one in-graph parent per event and no cycle the chains are the components |
| `ChainLaws.TwoRootsSplitComponent` | src/store/causal-graph.ts:91-140 | two roots with a common descendant always give two chains of one component |
| `ChainLaws.SharedChildSplitsComponent` | src/store/causal-graph.ts:91-140 | a three-event log whose chains are not its components |
| `MessageClassifiers.ScoreMessage` | src/memory/message-classifier.ts:54-87 | the score is at most that of system messages, and equal to it only for them |
| `MessageClassifiers.ScoreIs` | src/memory/message-classifier.ts:54-140 | what each score means: system, goal of the user, a tool result that mentions a change, else a verification, else an exploration, and anything else, in this order |
| `MessageClassifiers.MessageClassifier.HasDescendantOfType` | src/memory/message-classifier.ts:248-271 | true exactly when the node or something it reaches along the data's edges has one of the types |
| `MessageClassifiers.MessageClassifier.IsDeadEnd` | src/memory/message-classifier.ts:215-227 | never a dead end without a graph; with one, a dead end exactly when neither the node nor anything reached from its successors is a commitment or verification; this agrees with "none follows" exactly when the node is neither or one follows |
| `MessageClassifiers.UsefulAtOrAfter` | src/memory/message-classifier.ts:248-271 | the search from the node itself finds a commitment or verification exactly when the node is one or one is reached from a successor |
| `MessageClassifiers.LoneCommitmentIsNoDeadEnd` | src/memory/message-classifier.ts:215-227 | a graph of one commitment, where the answer is wrong: nothing follows, yet it is no dead end |
| `MessageClassifiers.SerializedDescendants` | src/memory/message-classifier.ts:248-271 | on a serialized graph the query answers whether `getReachable` would show a node of a listed type |
| `StableSorting.SortAscending` | src/memory/provenance-context.ts:95-104 | the sort is ascending and keeps the length |
| `StableSorting.SortMultiset` | src/memory/provenance-context.ts:95-104 | the sort is a permutation |
| `StableSorting.SortStable` | src/memory/provenance-context.ts:95-104 | elements with equal keys keep their order |
| `StableSorting.AscendingUnique` | src/memory/provenance-context.ts:95-104 | ascending and stable determine the result, so any stable sort is this one |
| `StableSorting.SortDescendingFirst` | src/memory/provenance-context.ts:95-104 | sorting descending and then ascending is sorting ascending, ties included |
| `ContextManagers.TrimWithinLimitIff` | src/runtime/agent-runtime.ts:163-181 | a trim meets the limit exactly when the list did, or the limit leaves room beside a leading system message |
| `ContextManagers.LimitOneGrows` | src/runtime/agent-runtime.ts:173-175 | with a limit of one and a leading system message, the context grows |
| `ContextManagers.ContextIsWindow` | src/runtime/agent-runtime.ts:134-181 | after any history the positional context is a sliding window that sticks to the first system message once that reaches its front |
| `ContextManagers.ContextManager.Add` | src/runtime/agent-runtime.ts:134-137 | push, then trim |
| `ContextManagers.ProvenanceContextManager.Add` | src/memory/provenance-context.ts:85-106 | the in-place version: base add, then with a sufficient graph score, sort, cut, sort, clear and refill, computes the specified context |
| `ContextManagers.PrunedContextOrdered` | src/memory/provenance-context.ts:85-106 | after any history the context is ascending by score and has min(history, limit) messages |
| `ContextManagers.PruningDropsLowest` | src/memory/provenance-context.ts:85-106 | a full context loses one message of the lowest score for the new one, and nothing else |
| `ContextManagers.ContextScores` | src/memory/provenance-context.ts:85-106 | the scores in context are, in order, the N - 1 best of all earlier messages and the newest message's score |
| `ContextManagers.ContextScoresFrom` | src/memory/provenance-context.ts:85-106 | the same when the graph comes later, over any context within its limit: the messages that were there count among the earlier ones, as far as positional trimming left room for them |
| `ContextManagers.GraphSetLater` | src/memory/provenance-context.ts:85-106 | the same after any positional history before the graph is set, in terms of its window |
| `ContextManagers.ContextFromHistory` | src/memory/provenance-context.ts:85-106 | the context is a sub-multiset of the history, and all of it until the limit is reached |
| `ContextManagers.ContextMessages` | src/memory/provenance-context.ts:85-106 | with fewer than N system messages the messages themselves, not only their scores, are the closed form |
| `ContextManagers.ScorePutsSystemOnTop` | src/memory/message-classifier.ts:54-87 | the actual score satisfies what these laws need of it |
| `TokenBudgets.EnforceBudget` | src/memory/provenance-context.ts:266-323 | the loops with their running count compute the three-pass allocation, whose limits are the system tokens plus the given percentages of what remains, each rounded down |
| `TokenBudgets.AllocationIsShared` | src/memory/provenance-context.ts:283-320 | what each pass adds: only messages that suit it (goals of the user, assistant messages, the rest), within its share and what earlier passes left; and what suits it and is left out would exceed that |
| `TokenBudgets.SummariesHaveTheirShare` | src/memory/provenance-context.ts:300-309 | an assistant message is kept, whatever else is given, when it and all earlier ones that could be taken at all fit into the summary share (and the goal share is not negative) |
| `TokenBudgets.GoalsHaveTheirShare` | src/memory/provenance-context.ts:288-297 | the same for goal messages and the goal share |
| `TokenBudgets.BudgetRespected` | src/memory/provenance-context.ts:266-323 | system messages are kept in front, only given messages appear, and percentages of at most 100 keep the total within the larger of system tokens and budget |
| `TokenBudgets.AllocationRespectedIff` | src/memory/provenance-context.ts:283-320 | without system messages, every total is within the maximum if and only if neither pass limit exceeds it |
| `TokenBudgets.AllocationIsMaximal` | src/memory/provenance-context.ts:312-320 | every message left out would overflow the final total |
| `TokenBudgets.GoalPassDistinctIff` | src/memory/provenance-context.ts:285-294 | the same for the goal pass alone, from any messages already taken |
| `TokenBudgets.AllocationDistinctIff` | src/memory/provenance-context.ts:266-323 | for every list of messages and all limits: nothing is included twice if and only if no system message object is given twice and, when the goal pass runs, no goal message already taken still fits under the goal limit when it is met again |
| `TokenBudgets.AllocationDuplicatesNothing` | src/memory/provenance-context.ts:266-323 | so nothing is included twice when no system and no goal message object is given twice, whatever else is repeated |
| `TokenBudgets.RepeatedGoalIncludedTwiceIff` | src/memory/provenance-context.ts:285-294 | the failing input: a goal given twice after a system message is included twice exactly when the goal limit has room for both |
| `BoundedQueues.BoundedQueue.Push` | src/core/bounded-queue.ts:39-65 | the new contents under each overflow policy, and when it throws |
| `BoundedQueues.DropOldestKeepsLast` | src/core/bounded-queue.ts:39-65 | without a reader, drop-oldest keeps exactly the last `maxSize` items pushed |
| `BoundedQueues.OthersKeepFirst` | src/core/bounded-queue.ts:39-65 | every other policy keeps exactly the first `maxSize` |
| `Reordering.RunConserves` | src/projection/websocket-server.ts:399-470 | for any arrivals, repeated and out of order: the buffer is sorted and not ready, the released events are numbered 1, 2, ..., and every arrival is either released or buffered |
| `Reordering.DeliveredPrefix` | src/projection/websocket-server.ts:399-470 | for distinct arrivals in any order, exactly the events 1 to next - 1 are released, in order, next being the first number that has not arrived |
| `Reordering.AllDelivered` | src/projection/websocket-server.ts:399-470 | once 1 to n have arrived, all of them have been released |
| `Reordering.StaleIff` | src/projection/websocket-server.ts:452-470 | a session is blocked exactly when a number below 1 arrived, or some number arrived twice although all numbers from 1 to it arrived: a condition on the arrivals alone, whatever their order |
| `Reordering.CanProgressIff` | src/projection/websocket-server.ts:452-470 | a session can still release something if and only if it is not blocked |
| `Reordering.RepeatedArrivalStalls` | src/projection/websocket-server.ts:452-470 | delivering a released number again stops the session for good |
| `Reordering.MissingNumberStalls` | src/projection/websocket-server.ts:452-470 | while the expected number does not arrive, nothing is released |
| `Reordering.ReleasesIff` | src/projection/websocket-server.ts:452-470 | from any state with nothing behind the expected number, something is released if and only if that number comes, or came, before a smaller one does |
| `Reordering.FilterTruncates` | src/projection/websocket-server.ts:418-424 | for distinct arrivals in any order: a client with an event-type filter is sent exactly what it would be sent without the filter, up to the first event that the filter rejects |
| `Resubscriptions.StaysListedIff` | src/projection/websocket-server.ts:315-464 | from any state of a session between arrivals: whatever listed events arrive, only listed ones are released, if and only if no type is listed, the session is blocked, or all events buffered before the first repeated number are listed |
| `Resubscriptions.BufferedTypeSlipsThrough` | src/projection/websocket-server.ts:315-464 | the failing input: number 2 is buffered, the client subscribes to the type of number 1 alone, and number 1 releases both |
| `ProjectionClients.SendPipe.EnqueueEvent` | src/projection/websocket-server.ts:472-475 | the queue after the push and when it throws; what was sent and what is queued stays, by the type of the history, an in-order part of what was enqueued, and all of it unless the queue overflowed or the socket closed |
| `ProjectionClients.SendPipe.FlushClient` | src/projection/websocket-server.ts:480-498 | sends from the front; nothing is lost or reordered unless the socket is found closed, which empties the queue |
| `ProjectionClients.Client.Deliver` | src/projection/websocket-server.ts:407-448 | an event for an inactive client, of another session than the one subscribed to, or of a type not listed, leaves the client as it is; any other is one more arrival of its session, and throws exactly when it releases more than a rejecting queue has room for; the released events, or those the queue had room for, are enqueued; other sessions stay |
| `ProjectionClients.Client.InsertionPoint` | src/projection/websocket-server.ts:437-443 | the binary search finds the position before the first number that is not smaller |
| `ProjectionClients.Client.ReleaseReady` | src/projection/websocket-server.ts:456-464 | the loop releases the ready events in order, and throws exactly when they are more than a rejecting queue has room for; then the room is filled, the next event is gone and its number still expected |
| `ProjectionClients.Client.Subscribe` | src/projection/websocket-server.ts:315-347 | switching sessions deletes the old session's state, a new session starts at 1 with an empty buffer, every other state stays; all that holds of the client's sessions is kept |
| `ProjectionClients.ClientSendsInOrder` | src/projection/websocket-server.ts:399-498 | in every valid client, of two events of a session that were sent or are queued, the one with the smaller number goes first, unless the session's state was deleted |
| `ProjectionClients.ClientSendsAll` | src/projection/websocket-server.ts:399-498 | in every valid client exactly the events 1 to nextSequence - 1 of such a session were ever enqueued, in order, and what was sent and is queued is an in-order part of it: all of it unless the queue overflowed or the socket closed |
| `ProjectionClients.ClientSendsSubscribed` | src/projection/websocket-server.ts:315-424 | in every valid client, what was enqueued since the latest subscription is of the session subscribed to, and of a listed type unless it was buffered before; so all of it if all that was buffered is |
| `ProjectionClients.ClientFilterTruncates` | src/projection/websocket-server.ts:399-470 | in every valid client, a session that is new at the subscription has enqueued exactly what arrivals of all events offered since release, up to the first its type filter rejects |
| `ProjectionClients.ClientDelivers` | src/projection/websocket-server.ts:399-470 | for distinct arrivals in any order, a client has enqueued exactly the events before the first number that has not arrived; so all of 1 to n once these have arrived |
| `ProjectionClients.LateSubscriberIff` | src/projection/websocket-server.ts:315-347 | a client that subscribes late, or switches away and back, gets anything of the session if and only if number 1 arrives afterwards and before any smaller number |
| `ProjectionClients.RejectResumesIff` | src/projection/websocket-server.ts:456-475 | after a rejected push the lost number is the one expected; whatever arrives and whatever room the rejecting queue then has, the session releases something again if and only if a copy of the lost number is there at a time when the queue has room, before a smaller number comes; each arrival at a full queue loses one more copy |
| `ProjectionClients.FullQueueLosesEvent` | src/projection/websocket-server.ts:456-475 | a full rejecting queue loses number 1 of a new session: it is neither enqueued nor buffered |
| `ProjectionServers.RingHoldsLast` | src/projection/websocket-server.ts:122-127 | the ring holds exactly the last `maxSize` items pushed |
| `ProjectionServers.StoredAndBuffered` | src/projection/websocket-server.ts:399-404 | storing and then buffering an event keeps the ring a suffix of the store's list, within its size |
| `ProjectionServers.RingReplayIsStoreReplay` | src/projection/websocket-server.ts:359-380 | for every id the ring holds, replay from the ring is replay from the store |
| `ProjectionServers.ProjectionServer.StoreAndBuffer` | src/projection/websocket-server.ts:399-404 | the event is appended to its session's stored list and pushed to that session's ring only; all rings stay suffixes |
| `ProjectionServers.ProjectionServer.HandleReconnect` | src/projection/websocket-server.ts:359-392 | a reconnecting client is sent what the full store holds after its last event; an error exactly when the id is in neither ring nor store |
| `ProjectionServers.ProjectionServer.FanOut` | src/projection/websocket-server.ts:407-448 | every client up to the first whose queue rejects takes the event, and is sent what this releases; that client, if there is one, takes what its queue has room for; those behind it are left alone, and the throw happens exactly there |
| `EventLogs.ReplayDescribes` | src/core/session-manager.ts:28-34 | a log's strict replay is running exactly on paths in the transition table from active, and broken on everything else that has lifecycle events |
| `EventLogs.ReplayIffPath` | src/core/session-manager.ts:28-34 | a log replays to a state exactly when its lifecycle events are a path that ends there |
| `EventLogs.NothingAfterTerminal` | src/core/session-manager.ts:28-34 | in a replayable log nothing of the lifecycle follows a terminal state |
| `EventLogs.ValidNextIff` | src/core/session-manager.ts:28-34 | a paused session can resume, an active one can become any other state, and no other change is valid |
| `EventLogs.RangeIsSlice` | src/core/event-stream.ts:193-203 | on a numbered log any range query, whatever its bounds, is a slice |
| `Deliveries.StoreFollowsIff` | src/store/event-store.ts:237-259 | for any run of deliveries with any trees of nested ones: the store the bridge fills equals the stream at the end if and only if no subscriber called before the bridge ever threw, or had something appended to the session in delivery |
| `Deliveries.CutsCost` | src/core/event-stream.ts:272-285 | the store receives nothing the stream has not recorded, and lacks one event for each delivery that a subscriber before the bridge cut off |
| `Deliveries.EarlyThrowLosesEvent` | src/core/event-stream.ts:272-285 | a throwing subscriber before the bridge costs the store the event, though nobody re-enters |
| `EventSourcing.EventStream.Append` | src/core/event-stream.ts:145-181 | refused exactly for an unregistered type or a number that is not one more than the session has, in this order, changing nothing; an accepted event is recorded before any subscriber is called, whatever they do, and the call throws exactly when one of them does; numbers stay 1 to n, the stream has recorded and the bridged store received what the subscribers' operations and throws say; without nested operations no session's state changes |
| `EventSourcing.SessionManager.CreateSession` | src/core/session-manager.ts:101-134 | a session with a new id whose event is numbered 1, even when a subscriber throws or re-enters; stream and bridged store as the delivery says, which misses the event if a subscriber before the bridge throws |
| `EventSourcing.SessionManager.Transition` | src/core/session-manager.ts:174-213 | a paused session resumes and an active one becomes any other state, appending one event with both states; every other change is refused and changes nothing; stream and bridged store as the delivery says |
| `EventSourcing.Runtime.Exec` | src/core/session-manager.ts:96-213 | any operation with any tree of re-entrant, throwing subscriber reactions keeps numbers 1 to n and live state equal to the replay of the log; a bridged store that equals the stream still does afterwards if and only if no subscriber called before the bridge threw, or had something appended to the session in delivery |
| `EventSourcing.Runtime.ExecAll` | src/core/session-manager.ts:96-213 | the same for any run of operations: numbers, live state and replay agree throughout, and a bridged store that equals the stream does so at the end if and only if every delivery was in order |
| `EventSourcing.Runtime.NotifySubscribers` | src/core/event-stream.ts:272-285 | the subscribers in order with the bridge among them: a throw before the bridge ends the delivery, so the bridge and all later subscribers are not called |
| `EventSourcing.Runtime.Connect` | src/store/event-store.ts:237-259 | the backfill makes the store equal to the stream |
| `Persistence.RunSound` | src/store/persistence.ts:187-308 | over any run of in-order stores, snapshots and restarts the disk holds every event, memory holds a suffix, and the snapshot's number is one the log reached |
| `Persistence.RestartPreservesViewIff` | src/store/persistence.ts:187-308 | after any run of in-order stores, snapshots and restarts, a restart preserves the events after the latest snapshot if and only if the last snapshot or restart of the run was not a snapshot of an empty cache over stored events |
| `Persistence.RunRecoverableIff` | src/store/persistence.ts:187-308 | under the same condition, and only then, the events the session can still show are all those stored after the snapshot on disk |
| `Persistence.SnapshotRecoverableIff` | src/store/persistence.ts:221-236 | a snapshot leaves the session recoverable if and only if its cache is not empty or nothing was ever stored |
| `Persistence.EmptySnapshotResurrects` | src/store/persistence.ts:221-236 | the excluded snapshot makes the next restart bring back every event |
| `Persistence.SnapshotThenRestartEmpties` | src/store/persistence.ts:298-304 | a snapshot followed by a restart leaves the empty cache in which the excluded snapshot can be taken |
| `Persistence.NoSnapshotFullLog` | src/store/persistence.ts:274-308 | without snapshots, for stores in any order and restarts at any time: the cache holds exactly the events stored, a restart sorts them by number, and stores in order are found in order at any time |
| `Persistence.RestartKeepsOrderIff` | src/store/persistence.ts:274-308 | without snapshots a restart gives the events back in the order of the stores if and only if that was ascending |
| `Persistence.PersistentEventStore.StoreEvent` | src/store/persistence.ts:187-195 | the event is appended to its session's file and cache; other sessions stay |
| `Persistence.PersistentEventStore.CreateSnapshot` | src/store/persistence.ts:221-236 | the session's snapshot, on disk and in memory, has the given state and the number of its last cached event, or 0; other sessions stay |
| `Persistence.PersistentEventStore.EventsSinceSnapshot` | src/store/persistence.ts:238-247 | the events after the latest snapshot, or all |
| `Persistence.PersistentEventStore.constructor` | src/store/persistence.ts:182-185 | a new process knows of every session exactly what a restart makes of the disk |
| `Persistence.PersistentEventStore.Recover` | src/store/persistence.ts:274-308 | the recovery loop: corrupted lines skipped, events sorted, those up to the snapshot dropped, sessions without a log file not found |
| `Persistence.RecoveryKeeps` | src/store/persistence.ts:284-304 | recovery keeps every event whose line parses, as often as it was written and wherever corrupted lines stand, except those the snapshot covers, in the order of their numbers |
| `BridgedRecovery.RestartRestoresStreamIff` | src/store/persistence.ts:187-308 | for a persistent store behind the bridge without snapshots, any backfill, any run of deliveries with nested ones and any reopening of the store: a restart gives back every session's log as the stream has recorded it if and only if no subscriber called before the bridge threw |
| `CircuitBreakers.CountsExact` | src/core/circuit-breaker.ts:93-164 | for any options and in every run with overlapping calls: closed means the trailing failures counted exactly, and fewer than the threshold or none; half-open means fewer successes than needed or none |
| `CircuitBreakers.CountsBoundedIff` | src/core/circuit-breaker.ts:93-164 | closed with fewer failures than the threshold and half-open with fewer successes than needed holds in every run if and only if both bounds are at least 1 |
| `CircuitBreakers.OpensAtThreshold` | src/core/circuit-breaker.ts:152-164 | for any options, a closed breaker opens exactly at a failure that makes the trailing run as long as the threshold, and leaves the closed state in no other way |
| `CircuitBreakers.ClosesAtAttempts` | src/core/circuit-breaker.ts:139-164 | from half-open: closed exactly at a reset, or at a success that makes the successes since it turned half-open as many as it needs, with no failures counted; open exactly at a failure |
| `CircuitBreakers.HalfOpenCounts` | src/core/circuit-breaker.ts:93-150 | a half-open breaker was turned so at some step and has counted the successes since |
| `CircuitBreakers.LeavesOpenIff` | src/core/circuit-breaker.ts:93-164 | from open: half-open exactly when looked at after the recovery time, closed exactly at a reset; late failures count and restart the recovery time at the threshold, a late success clears the count |
| `CircuitBreakers.NoAdmissionDuringCooldown` | src/core/circuit-breaker.ts:93-136 | without a reset no call is admitted within the recovery time of an opening, late completions included |
| `CircuitBreakers.OpenWasOpened` | src/core/circuit-breaker.ts:152-164 | an open breaker was opened by some failure since the last reset, at the time it holds |
| `CircuitBreakers.AdmittedIff` | src/core/circuit-breaker.ts:93-136 | after any run a call is admitted if and only if every opening since the last reset is at least the recovery time ago |
| `CircuitBreakers.CircuitBreaker.OnFailure` | src/core/circuit-breaker.ts:152-164 | the in-place update is the failure step |
| `CircuitBreakers.CircuitBreaker.OnSuccess` | src/core/circuit-breaker.ts:139-150 | the in-place update is the success step |
| `TokenBuckets.TokensInRangeIff` | src/core/rate-limiter.ts:46-109 | every run keeps the tokens between 0 and the capacity if and only if the initial tokens are |
| `TokenBuckets.TokensBounded` | src/core/rate-limiter.ts:46-109 | from any initial tokens, every run stays below the larger of these and the capacity, and above the smaller of these and 0 |
| `TokenBuckets.RefillKeepsHalf` | src/core/rate-limiter.ts:99-109 | a refill credits at least half of what the elapsed time is worth |
| `TokenBuckets.RefillIsByInterval` | src/core/rate-limiter.ts:99-109 | a refill credits the rate once for each whole interval elapsed |
| `TokenBuckets.RateLimit` | src/core/rate-limiter.ts:46-109 | over any window, from any state, at most max(capacity, tokens) + refillRate * (floor(window / interval) + 1) tokens are consumed |
| `TokenBuckets.OverfullBucketExceeds` | src/core/rate-limiter.ts:34-41 | capacity 10 and 50 initial tokens: the bound with the capacity alone fails |
| `TokenBuckets.EventuallyGrantedIff` | src/core/rate-limiter.ts:46-68 | from any state a request can be granted at some later time if and only if the tokens are there, or are refilled at all and fit into the bucket |
| `TokenBuckets.TokenBucket.TryConsume` | src/core/rate-limiter.ts:46-56 | refill, then take all the tokens or none |
| `TokenBuckets.TokenBucket.WaitAndConsume` | src/core/rate-limiter.ts:60-68 | uncontended waiting for at most the capacity ends, and does to the bucket exactly what requests for these tokens in time order do, which consume them once |
| `LineFraming.StdioTransport.ReadLoop` | src/mcp/transport.ts:217-250 | for every way of cutting the text into chunks: the messages of the whole text, in order, up to the first whose handing over throws, if any does; if none does, its unterminated rest stays in the buffer |
| `LineFraming.StdioTransport.ReadChunk` | src/mcp/transport.ts:225-237 | one turn of the loop: append, split, keep the last piece, hand over the trimmed lines that are not blank until one throws |
| `LineFraming.EveryChunking` | src/mcp/transport.ts:217-250 | what is handed over and whether the loop throws does not depend on the chunks; the buffer keeps what follows the last newline of the chunks read until then |
| `LineFraming.UpToFirstThrow` | src/mcp/transport.ts:230-235 | exactly the messages up to the first that throws are handed over, this one included |
| `LineFraming.ResidueIff` | src/mcp/transport.ts:225-235 | all ways of cutting a text leave the same in the buffer if and only if nothing but newlines follows a message that throws |
| `LineFraming.BadLineEndsTheLoop` | src/mcp/transport.ts:83-117 | the failing input: behind a line that throws a message is lost, and two cuts of one text leave different buffers |
| `LineFraming.SplitJoins` | src/mcp/transport.ts:228-229 | the pieces, joined by newlines, are the text |
| `LineFraming.SplitIsUnique` | src/mcp/transport.ts:228-229 | lines without newlines and a rest come back as the pieces: splitting is the inverse of joining |
| `LineFraming.LinesConcat` | src/mcp/transport.ts:225-229 | text read in two parts is split as if read at once |
| `LineFraming.TrimStripsSpaces` | src/mcp/transport.ts:232 | trimming takes spaces off both ends, all of them and nothing else |
| `LineFraming.VisibleStays` | src/mcp/transport.ts:232 | text that begins and ends with visible characters is not trimmed |
| `LineFraming.CarriageReturnIsTrimmed` | src/mcp/transport.ts:228-235 | a message followed by a carriage return is read the same, and lines of blanks are no messages |
| `LineFraming.SentIsReceivedIff` | src/mcp/transport.ts:203-238 | messages sent one per line are handed over once and in order, for every chunking, if and only if none before the last makes its receiver throw |
| `Profiles.ResolveMeaning` | src/runtime/profile-registry.ts:87-118 | resolution ends on every registry: a cycle error exactly when the walk along `extends` comes back to a name, a not-found error exactly for the missing name it reaches, a profile exactly when it ends; each field is then its nearest definition |
| `Profiles.InternalOutcome` | src/runtime/profile-registry.ts:91-118 | the same for the recursion from any point of the walk |
| `Profiles.CycleIsTheWalk` | src/runtime/profile-registry.ts:97-100 | the reported cycle is the walk up to its first repetition |
| `Profiles.OffTheWalk` | src/runtime/profile-registry.ts:52-62 | registering or removing profiles off the walk does not change the resolution |
| `Profiles.SpawnConfigBuilder.FromProfile` | src/runtime/spawn-config.ts:45-50 | the name is set even when resolving throws, the profile only when it does not |
| `Profiles.SpawnConfigBuilder.Build` | src/runtime/spawn-config.ts:111-129 | each of the eleven settings is the override if defined, else the resolved profile's |
| `Profiles.SettingPrecedence` | src/runtime/spawn-config.ts:111-129 | a setting is the override, else the nearest property of that name along the walk, else undefined |
| `Profiles.InheritsNearestValueIff` | src/runtime/profile-registry.ts:110-117 | without override the setting is the nearest value along the walk exactly when no nearer profile holds the property as undefined |
| `Profiles.UndefinedHidesParent` | src/runtime/profile-registry.ts:110-117 | a child with an undefined model hides its parent's model |
| `ToolBracketing.AgentRuntime.ExecuteToolCalls` | src/runtime/agent-runtime.ts:865-967 | for any way the tools settle, the callbacks throw, and each append records, throws or is refused: the events written, and a result for each call up to the first that something throws out of; it is a success exactly when the tool resolved with success and the new protocol's appends recorded, and its duration the tool's when the tool finished, else 0 |
| `ToolBracketing.AgentRuntime.ProcessInput` | src/runtime/agent-runtime.ts:350-383 | the log one input appends, wherever an append, a callback or the model throws |
| `ToolBracketing.CallWrites` | src/runtime/agent-runtime.ts:865-967 | what one call writes: nothing unless its start is recorded, which comes first; last its outcome, completed exactly when the tool finished with success, with the tool's duration or 0; in between what the new protocol appends |
| `ToolBracketing.CallsWrite` | src/runtime/agent-runtime.ts:865-967 | calls are made up to the first that something throws out of |
| `ToolBracketing.TurnWrites` | src/runtime/agent-runtime.ts:471-522 | a turn writes request, response, and what its calls write |
| `ToolBracketing.TurnsTaken` | src/runtime/agent-runtime.ts:452-615 | turns go on until the limit, or the first that throws or has no tool calls |
| `ToolBracketing.SessionToolEvents` | src/runtime/agent-runtime.ts:865-967 | among the tool events of a session each start is followed by its own outcome, or by the next start if something threw between the record of the start and that of the outcome |
| `ToolBracketing.BracketedIff` | src/runtime/agent-runtime.ts:865-967 | at any point at most one start is open exactly when no run but the last was cut off (by the result callback, by a subscriber on the start, or by a stop before the outcome); at rest none is open exactly when no run was |
| `ToolBracketing.QuietRunsAreWhole` | src/runtime/agent-runtime.ts:865-967 | when no call's result callback, subscriber on the start or refused outcome would cut it off, no run of the session is cut off |
| `ToolBracketing.ThrowingSubscriberLeavesStartOpen` | src/runtime/agent-runtime.ts:1075-1090 | a subscriber that throws on the start leaves it open though both callbacks are quiet |
| `ToolBracketing.StoppingLeavesStartOpen` | src/runtime/agent-runtime.ts:343-344 | stopping the session while a tool runs leaves its start open though nothing else throws |
| `ToolBracketing.MostOpenIsMost` | src/runtime/agent-runtime.ts:865-967 | the measure of open starts used above is the maximum over all prefixes of the log |
| `ToolPerformance.GroupByTool` | src/store/query-engine.ts:95-119 | one pass over the events gives for each wanted tool, in the order of first mention, its starts, completions, failures and durations |
| `ToolPerformance.GetToolPerformance` | src/store/query-engine.ts:94-138 | one row per wanted tool the events in the range mention, in the order of first mention; the figures are those of all these events; rate times outcomes is completions, average times count is the sum of durations |
| `ToolPerformance.GetAllFilteredEvents` | src/store/query-engine.ts:287-301 | all sessions' events in the time range, session by session |
| `ToolPerformance.FilteredConcat` | src/store/query-engine.ts:287-301 | the filter works event by event |
| `ToolPerformance.FilteredOne` | src/store/query-engine.ts:287-301 | a tool event is kept from the start time to the end time, both included |
| `ToolPerformance.InvocationsAddUpIff` | src/store/query-engine.ts:121-135 | in a session's log a tool's invocations exceed its successes and failures by its runs that were cut off, and are equal to them exactly when there is none |
| `ToolPerformance.RowAddsUpIff` | src/store/query-engine.ts:121-135 | in the row returned for a tool over all time and any number of sessions: invocations are successes plus failures plus the runs cut off, and add up without these if and only if no session cut one off |
| `ToolPerformance.RowIs` | src/store/query-engine.ts:94-138 | the row returned for a tool over all time and any number of sessions: invocations are its runs, successes and failures the whole runs that succeeded and failed, and the average is over the durations of the whole runs |
| `SessionAnalysis.AnalyzeSession` | src/analysis.ts:92-131 | the loop adds to each command the pairs of its starts with the first later outcome |
| `SessionAnalysis.AnalyzeSessions` | src/analysis.ts:63-160 | one row per command over all sessions with the statistics of its pairs and their average; the rows by count, most frequent first, and by first start among equals |
| `SessionAnalysis.PairingIsOwnIff` | src/analysis.ts:100-107 | the first later outcome is each start's own exactly when no run that ends follows one that was cut off |
| `SessionAnalysis.SessionPairingIsOwnIff` | src/analysis.ts:100-107 | the same for the log of any session of the runtime |
| `SessionAnalysis.LongestSpan` | src/analysis.ts:105-127 | a command's maximal duration is its longest span from a start to the outcome paired with it, or 0 |
| `SessionAnalysis.TotalIsTimeTaken` | src/analysis.ts:105-126 | in a session in which no ended run follows a cut-off one, the total duration is the time its whole runs took |
| `SessionAnalysis.AllRunsAreUnknown` | src/analysis.ts:102-103 | on the log of any session of the runtime: all runs are counted under one command, and its errors are the failed runs plus, once more, each failure a cut-off run is paired with |
| `SessionAnalysis.OneRowForAllSessions` | src/analysis.ts:105-128 | over any number of sessions the analysis has at most one row, with all runs; its errors are the failures exactly when in no session a cut-off run is followed by a failing run before a successful one |

## Left out

- ProvenanceGraphs.ProvenanceGraph.GetReachable: does not fix the order of the nodes, because BFS order is not relied on anywhere.
- CausalGraphs.FindDownstream: does not fix the order of the events, for the same reason.
- CausalGraphs.FindIndependentChains: fixes the order of the chains and their first elements, not the order inside a chain.
- ProjectionClients.ClientSendsInOrder: says nothing of a session whose state was deleted by a switch: it starts at 1 again, so its numbers may come a second time.
- ProjectionClients.ClientDelivers: speaks of sessions that no rejected push has cut short; for those `RejectResumesIff` does.
- ProjectionClients.ClientFilterTruncates: speaks of sessions without a state at the subscription and without a rejected push; for the others `ClientSendsSubscribed` and `Resubscriptions.StaysListedIff` say what may come.
- ProjectionServers.ProjectionServer.FanOut: the clients are a list in the order in which they connected; connecting and disconnecting meanwhile are not modelled.
- ProjectionServers.ProjectionServer.HandleReconnect: returns the events to send; sending them bypasses the send queue and is not part of the queue's order.
- ProjectionServers.ProjectionServer.StoreAndBuffer: takes the event store and the projection server to see events in the same order, as the program wires them.
- ToolPerformance.GetToolPerformance: times are numbers in the order of the ISO strings, and only tool events carry one; an absent tool name is "".
- SessionAnalysis.AnalyzeSessions: leaves out session summaries, totals, the list of error events and the suggestions; an absent `command` or `tool` is "", as falsy.
- ToolBracketing.AgentRuntime.ExecuteToolCalls: takes the way each tool settles, which callbacks throw and how each append goes as an input, so it also covers combinations that no stop of a session gives; hooks, and callbacks elsewhere in the loop, are part of the model turn that throws; what subscribers append themselves is not modelled here.
- AgentProvenance.AgentRuntime.ProcessInput: one input at a time; hooks, memory, streaming deltas and overlapping inputs are not modelled, and the graph is taken to exist.
- MessageClassifiers.ScoreMessage: takes the content already in lower case as an input, and no message is mapped to a provenance node, as in the code.
- TokenBudgets.EnforceBudget: message objects carry an identity, because `includes` compares objects; the budget's percentages are real numbers.
- Persistence.PersistentEventStore.StoreEvent: a line is written wholly or not at all; file names, directories and JSON text are not modelled.
- EventSourcing.Runtime.Exec: writers other than the session manager append no lifecycle events; a subscriber's own exception ends its list of operations.
- EventSourcing.EventStream.Append: unsubscribing while events are delivered, type filters of subscribers and schema migration are not modelled.
- EventSourcing.Runtime.Connect: without the `onEvent` callback, and connected once.
- BridgedRecovery.RestartRestoresStreamIff: for one data directory without earlier events and without snapshots; a write that fails inside the bridge is a throw before it.
- ContextManagers.ContextScoresFrom: from when the graph is sufficient on; a graph that is replaced by an insufficient one later is not covered.
- ToolPerformance.RowAddsUpIff: for the query without a time range, since a range may separate a start from its outcome.
- TokenBuckets.RateLimit: counts time in whole milliseconds, where `performance.now()` has fractions.
- TokenBuckets.TokensBounded: takes the capacity and the refill rate to be at least 0 and the interval to be positive, as the options mean them.
- TokenBuckets.TokenBucket.WaitAndConsume: other users of the bucket meanwhile are not modelled; the interval timer refills through the same `refill`.
- LineFraming.StdioTransport.ReadLoop: starts from decoded text; whether handing over a message throws is a function of the messages handed over so far, whatever their dispatch; decoding, a disconnect while a chunk is handled, timeouts and reconnects are not modelled.
- Profiles.SpawnConfigBuilder.Build: profiles are values, so a caller that keeps and changes a registered object is not modelled; the builder's eleven setters are one method with a field name.
- `waitAndPush`, waiters and the block policy's waiting side of the bounded queue: timers only.
- Heartbeats, welcome messages, HTTP handling, SQLite and DuckDB queries, `web/`, the command line, capabilities, memory retrieval and pattern analysis: I/O or thin wrappers without an invariant of their own.
