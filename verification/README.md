# Openspace OS Core: verified models

A Dafny model of the concurrent, transactional and textual core of Openspace OS Core, with proofs over all inputs, all
interleavings and all failure points. `dafny verify dfyconfig.toml` checks everything.

| files | what they model |
|---|---|
| `CommandProtocol`, `CommandInvariants`, `CommandRuns`, `CommandFairness`, `CommandLifeCycle`, `CommandQueue`, `CommandScheduler` | the command pipeline: dispatcher, senders, retries, cancel and stop as a state machine; the queue and scheduler objects as code that performs its steps |
| `Traversal`, `TraversalOrder` | breadth-first traversal of the relationship table: which rows it returns, and in which order |
| `KnowledgeGraph`, `KnowledgeGraphService` | nodes, relationships and the event log, with every failure point of every operation |
| `Placeholders`, `QueryBuilders`, `QueryMeaning` | `?` to `$N` rewriting at character level, the builders that grow text and arguments together, and which rows the built queries ask for |
| `BusProtocol`, `BusDelivery`, `BusRuns`, `LocalBus` | the in-process event bus: publish, fan-out, drop, replay and close |
| `EventStore`, `SqliteEvents`, `StoreAgreement`, `Replay` | in-place retention and queries of the memory store; queries of the SQLite store, and when the two agree; the two replays of history |
| `TimeText` | times as text: when the order of RFC3339Nano texts is the order of time |
| `Import`, `MigrationSort`, `MigrationRuns` | batched data import and schema migration, with failures and re-runs |
| `UsageTotals`, `UsageCollector`, `UsageQueries` | usage metering: buckets, flushes, totals, and what queries see of them |
| `BufferQueue`, `TleText`, `TleChecksum` | the telemetry buffer and the text of two-line element sets |
| `Prelude`, `Sorting` | sums over maps, and what the sort calls promise |

Code that changes fields or arrays in place is a class or a method over an array here; its contract ties the new state to a
function of the old one, and the properties are lemmas about that function or about the state machine it belongs to.

## Reading the models

- Atomic steps. In the command pipeline a status write, the queue update after it and its counter are one step, and so are
  the read, check and write of Cancel and the whole of RecordAck. The code holds no lock across these, so this is an
  assumption, not a result. In the bus, the usage collector and the telemetry buffer every channel operation is its own step.
- History. Some state exists for the statements only: what was ever sent, delivered, lost, accepted or appended.
- Failures. Calls that can fail do so by choice: an argument says which one, or, for the tables of the import and the fetches
  of the replay, any of them may unless the connection is said to be healthy.
- Times are integers, in nanoseconds where a duration matters; where a database compares them, their text is modelled.
- Fairness. That goroutines get their turns is a hypothesis of the theorems that need it.

## Where the code does less than it says

Each failure comes with an input, as a lemma, and with the exact condition.

- Usage queries compare times as text, and the text of a whole second stands behind every other text of that second. The
  default query misses what was recorded in the present minute during the first second of it (`RecentRecordIsMissed`,
  `MissedIff`), and a query that starts at a fraction of a second may count a minute too much (`EarlierMinuteIsAdded`,
  `AddedIff`).
- For the same reason the SQLite event store does not always return events "in ascending order of their timestamp"
  (`LaterEventComesFirst`, `OrdersAgreeIff`), it misses events of the time range of a query (`MissedEvent`,
  `SqliteEvents.FoundIff`), and it returns events from before its start (`ReturnedTooEarly`, `ReturnedOutsideIff`). When its
  answers are those of the memory store all the same is `StoresAgreeIff`.
- "The event log determines the graph" does not hold for every run in which all publishes succeed: a deletion without a
  transaction that fails halfway has removed rows that no event tells of, until it is repeated (`TornDeleteExample`,
  `TornDeleteInStepIff`, `LogDeterminesGraph`, `RepeatedDeleteIsTold`). And an update to an empty status is stored although
  the event that would announce it is rejected (`EmptyStatusExample`, `UpdateInStepIff`).
- Stop is to wait for all sends in flight. A call that finds the scheduler already stopped does not
  (`SecondStopDoesNotWait`, `NoneSendingIff`).
- Placeholder rewriting changes the meaning of a text in which a digit directly follows a `?` or a `$`
  (`RebindChangesMeaning`, `RebindKeepsMeaningIff`).
- The comment on BufferQueue promises room for the newest item. Two producers can take it from each other
  (`NewestCanBeLost`, `NeverLostIff`, `RetryRefusedIff`).
- A migration run that meets one version twice fails, and the next run skips the second migration for good
  (`DuplicateIsSkipped`, `NoneIsSkippedIff`).
- The stream replay reports success when a fetch fails and returns what it has so far (`FailedFetchExample`,
  `FailedFetchCompleteIff`).
- The retry wait overflows for a late enough retry and is then shorter than documented (`DelayOverflows`,
  `DelayIsExponential`), although only after some retry has waited for over 146 years (`OverflowComesLate`).

## Model

| member | source | states |
|---|---|---|
| CommandProtocol.WithDefaults | internal/pipeline/command/scheduler.go:30-44 | an effective configuration is kept as it is; each value that is not positive is replaced by its documented default, and the result is always effective |
| CommandProtocol.DelayIsExponential | internal/pipeline/command/scheduler.go:262-269 | the wait computed in 64-bit arithmetic never exceeds RetryBackoff * 2^(n-1) for the n-th retry, and is exactly that if and only if the product fits an int64 |
| CommandProtocol.DelayOverflows | internal/pipeline/command/scheduler.go:262-269 | with the default base of two seconds the 34th retry waits not at all, where the documented wait is over 500 years |
| CommandProtocol.OverflowComesLate | internal/pipeline/command/scheduler.go:262-269 | but wherever the documented wait does not fit, an earlier retry of the same command has waited exactly as documented and for at least 2^62 nanoseconds, over 146 years |
| CommandInvariants.InvStep | internal/pipeline/command/scheduler.go:105-301 | every atomic step of Send, Cancel, dispatcher, senders and Stop keeps the slot count, single ownership, attempt accounts, counters and shutdown order together |
| CommandInvariants.InvRun | internal/pipeline/command/scheduler.go:105-301 | the same over any run of any interleaving |
| CommandInvariants.OwnershipStep | internal/pipeline/command/scheduler.go:120-156 | a sending item has exactly one owner, the dispatcher or one sender, and only sending items have one, after every step |
| CommandInvariants.SlotsCountedStep | internal/pipeline/command/scheduler.go:129-155 | the semaphore holds exactly one slot per holder and never more than MaxConcurrent, after every step |
| CommandInvariants.AccountsStep | internal/pipeline/command/scheduler.go:167-301 | attempts, retry count and charged back-off of every item agree with its status after every step |
| CommandInvariants.TotalsStep | internal/pipeline/command/metrics.go:48-57 | TotalSent, TotalFailed and TotalAcked equal the sums they stand for, and SuccessRate stays within 0..10000, after every step |
| CommandRuns.AtMostMaxConcurrentSending | internal/pipeline/command/scheduler.go:120-156 | in every reachable state at most MaxConcurrent commands are sending |
| CommandRuns.OneOwner | internal/pipeline/command/scheduler.go:149-154 | in every reachable state a command is sending exactly when one goroutine holds it |
| CommandRuns.NoneSendingAfterStop | internal/pipeline/command/scheduler.go:105-117 | once the first call of Stop, the one that closes the channel and waits, has returned, no command is left sending |
| CommandRuns.SecondStopDoesNotWait | internal/pipeline/command/scheduler.go:106-110 | a further call returns at once, in some run while a command is being sent |
| CommandRuns.NoneSendingIff | internal/pipeline/command/scheduler.go:106-110 | in every reachable state, so also when such a call returns, nothing is being sent if and only if neither the dispatcher nor a sender holds an item |
| CommandRuns.ContinuesStep | internal/pipeline/command/pipeline.go:210-222 | a step, Cancel included, never alters a terminal item, its priority or its arrival time, and never lowers a retry count |
| CommandRuns.ContinuesRun | internal/pipeline/command/scheduler.go:200-256 | over any run acked, failed and cancelled items never change again, also when an adapter answers after its timeout, and a retried item keeps its place |
| CommandRuns.AttemptAccounting | internal/pipeline/command/scheduler.go:263-301 | sendItem calls equal the retry count while queued or cancelled, one more once acked or failed by exhaustion, and never exceed MaxRetries+1 |
| CommandRuns.BackoffBounded | internal/pipeline/command/scheduler.go:263-278 | the back-off charged to one command is at most RetryBackoff * (2^MaxRetries - 1) |
| CommandRuns.CountersAgree | internal/pipeline/command/metrics.go:48-57 | in every reachable state the counters equal the attempts and the failed items, and the acked items up to those whose counting step is still due |
| CommandRuns.WorkStep | internal/pipeline/command/scheduler.go:120-301 | every step but a new Send or an idle poll strictly lowers a measure of the work left |
| CommandRuns.ProgressIsBounded | internal/pipeline/command/scheduler.go:120-301 | in any run the number of non-idle steps is bounded by the initial work and the new Sends |
| CommandRuns.CanProgress | internal/pipeline/command/scheduler.go:120-156 | while a command is unfinished and the scheduler runs, some step is enabled that brings the end nearer |
| CommandRuns.CanFinish | internal/pipeline/command/scheduler.go:120-301 | from every state of a running scheduler some run without Send or Stop makes all commands terminal |
| CommandFairness.FairRunsFinish | internal/pipeline/command/scheduler.go:120-301 | and every fair run does: after more fair rounds than there is work left, a round being any interleaving in which each sender and the dispatcher get their turns, every command is acked, failed or cancelled |
| CommandFairness.FairRoundExists | internal/pipeline/command/scheduler.go:120-301 | in every state of a running scheduler there is such a round, so fair runs of any length exist |
| CommandLifeCycle.LifeCycleStep | internal/pipeline/command/scheduler.go:200-301 | every change of an item has its cause: only Cancel cancels, and only a queued item; the end of a wait puts a sending item back in the queue and changes nothing else of it but the send time; a failed attempt uses up a retry or, with none left, fails it; a positive reply acks it |
| CommandLifeCycle.CancelledByCaller | internal/pipeline/command/pipeline.go:210-222 | over any run an item that ends cancelled, and did not begin so, was cancelled by a call of Cancel for it |
| CommandLifeCycle.FairRunsServe | internal/pipeline/command/scheduler.go:120-301 | a fair run without Cancel and Stop, long enough and begun with nothing cancelled, ends with every command acked, or failed after exactly MaxRetries + 1 sends |
| CommandLifeCycle.WaitedIsExact | internal/pipeline/command/scheduler.go:262-283 | in every reachable state what a command has been made to wait is exactly the back-off of its retries so far |
| CommandLifeCycle.TimeoutsAreCounted | internal/pipeline/command/scheduler.go:201-209 | over any run TotalTimeout grows by exactly the timed-out attempts, each of which leaves one adapter call behind that may still answer |
| CommandRuns.StoppedRunsAreBounded | internal/pipeline/command/scheduler.go:105-149 | once the stop channel is closed even idle polling is bounded, so every run without Sends is finite |
| CommandRuns.StopIsNotStuck | internal/pipeline/command/scheduler.go:105-117 | until Stop has returned, the dispatcher or a sender has a step, or Stop can return |
| CommandQueue.PriorityQueue.Enqueue | internal/pipeline/command/queue.go:66-88 | rejects no item, an empty identifier and a known one and then changes nothing; otherwise adds exactly this item, an empty status becoming queued and a zero arrival time the present |
| CommandQueue.PriorityQueue.Dequeue | internal/pipeline/command/queue.go:94-121 | takes a queued item of highest priority and, among those, of earliest arrival, marks only that one as sending, and returns nothing exactly when none is queued, for every map order |
| CommandQueue.PriorityQueue.Update | internal/pipeline/command/queue.go:132-138 | replaces a known item and ignores an unknown one |
| CommandQueue.PriorityQueue.List | internal/pipeline/command/queue.go:155-167 | every item once, by arrival time; ties in any order |
| CommandQueue.PriorityQueue.PendingCount | internal/pipeline/command/queue.go:187-197 | the number of queued items |
| CommandQueue.DrainIsSorted | internal/pipeline/command/queue.go:94-121 | repeated Dequeue yields every queued item exactly once, by priority and then arrival, whatever the map order and the clock |
| CommandQueue.DrainIsUnique | internal/pipeline/command/queue.go:94-121 | when no two items tie, the drain order is unique |
| CommandScheduler.Metrics.RecordAck | internal/pipeline/command/metrics.go:48-57 | counts a successful acknowledgement and recomputes the rate; ignores an unsuccessful one |
| CommandScheduler.Scheduler.Send | internal/pipeline/command/pipeline.go:161-196 | is the protocol step Send for a valid new command, and otherwise leaves the whole system unchanged |
| CommandScheduler.Scheduler.Cancel | internal/pipeline/command/pipeline.go:210-222 | succeeds exactly for a queued command and is then the protocol step Cancel |
| CommandScheduler.Scheduler.CloseStop | internal/pipeline/command/scheduler.go:105-114 | the first call closes the stop channel, later ones change nothing |
| CommandScheduler.Scheduler.CheckStop | internal/pipeline/command/scheduler.go:123-127 | is the protocol step that looks at the stop channel |
| CommandScheduler.Scheduler.AcquireSlot | internal/pipeline/command/scheduler.go:130-134 | takes a slot or quits, each only when enabled |
| CommandScheduler.Scheduler.TakeNext | internal/pipeline/command/scheduler.go:137-138 | is the protocol step for an empty queue or for the best item |
| CommandScheduler.Scheduler.ReleaseUnused | internal/pipeline/command/scheduler.go:139-140 | gives the slot back when nothing was queued |
| CommandScheduler.Scheduler.Pause | internal/pipeline/command/scheduler.go:141-146 | goes on after the timer, or quits only when stopped |
| CommandScheduler.Scheduler.SpawnSender | internal/pipeline/command/scheduler.go:149-154 | hands item and slot to a new sender in one step |
| CommandScheduler.Scheduler.BeginSending | internal/pipeline/command/scheduler.go:179-197 | counts the attempt |
| CommandScheduler.Scheduler.OnTimeout | internal/pipeline/command/scheduler.go:201-209 | is the protocol step of a timed-out attempt and asks for the wait of RetryOrFail; the abandoned adapter call may answer later |
| CommandScheduler.Scheduler.OnReply | internal/pipeline/command/scheduler.go:211-242 | an error or a negative acknowledgement is a failed attempt and asks for the wait of RetryOrFail, a positive one is the step Ack and asks for none |
| CommandScheduler.Scheduler.RetryOrFail | internal/pipeline/command/scheduler.go:263-301 | is the protocol step Fail; it asks for a wait exactly while retries are left, and for the exponential one |
| CommandScheduler.Scheduler.RequeueAfterBackoff | internal/pipeline/command/scheduler.go:277-283 | the item is queued again with the same priority, arrival time and retry count and without a send time; no other item changes |
| CommandScheduler.Scheduler.FailOnStop | internal/pipeline/command/scheduler.go:271-276 | a stop during the wait fails the item |
| CommandScheduler.Scheduler.CountAck | internal/pipeline/command/scheduler.go:251-251 | is the counting step after an acknowledgement |
| CommandScheduler.Scheduler.GiveSlotBack | internal/pipeline/command/scheduler.go:152-152 | returns the slot once the sender is done |
| Traversal.Graph.Query | internal/core/rel_repo_sqlite.go:193-235 | returns exactly the rows that match the type filter and touch the node in the chosen direction |
| Traversal.QueryInOrder | internal/core/rel_repo_sqlite.go:216-235 | each of these rows once, in the order of the table, which is kept by creation time and identifier |
| Traversal.Traverse | internal/core/rel_repo_sqlite.go:143-190 | for every direction string, type and depth: each row is returned once, and returned if and only if it is of the type and at a node that a walk of fewer steps than the depth leads to, where "in" means rows that end at the node, "both" either end, and any other word rows that start there; nearer rows come first |
| Traversal.BallIsWithin | internal/core/rel_repo_sqlite.go:161-188 | the nodes met within n levels are exactly those joined to the start by a path of at most n steps |
| Traversal.ExpandStep | internal/core/rel_repo_sqlite.go:163-187 | expanding a frontier collects exactly its incident edges and visits exactly its neighbours; skipping a collected edge loses no node, because both its ends are visited |
| Traversal.TraverseExact | internal/core/rel_repo_sqlite.go:143-190 | without duplicates, exactly the matching edges incident in that direction to a node at distance below the depth |
| Traversal.DeeperExtends | internal/core/rel_repo_sqlite.go:161-188 | the result at depth d is a prefix of the result at depth d+1 |
| TraversalOrder.DiscoveryOrder | internal/core/rel_repo_sqlite.go:161-188 | of two rows in the result the one found at the node discovered first comes first, and of two found at the same node the one that stands first in the table, so the order of the result is determined |
| Traversal.DeepEnough | internal/core/rel_repo_sqlite.go:161-188 | cycles or not, a depth of at least the number of distinct nodes returns exactly the edges at nodes that any path leads to |
| KnowledgeGraph.NeverDangling | internal/core/kg_service.go:180-298 | after any sequence of service operations, with failures anywhere, every stored relationship has both endpoints stored |
| KnowledgeGraph.LogAccountsForGraph | internal/core/kg_service.go:82-314 | in any run in which every publish succeeded, folding the log gives exactly the node types and statuses, and the stored relationships together with those that failed deletions removed and no event tells of |
| KnowledgeGraph.LogDeterminesGraph | internal/core/kg_service.go:82-314 | so in such a run the log alone rebuilds the graph if and only if no such removal is left |
| KnowledgeGraph.RepeatedDeleteIsTold | internal/core/kg_service.go:222-244 | repeating a failed deletion until it succeeds has the effect of one that succeeds at once, and brings log and graph in step again |
| KnowledgeGraph.StatusesChain | internal/core/kg_service.go:103-148 | within a lifetime of a node each StateUpdated starts from the status the previous one set, the first from the empty one |
| KnowledgeGraph.UpdateInStepIff | internal/core/kg_service.go:126-166 | on a healthy bus the log goes on accounting for the graph after an update if and only if it does not set the status to the empty string |
| KnowledgeGraph.EmptyStatusExample | internal/core/kg_service.go:126-166 | registering a node and clearing its status, with every publish accepted that is valid, leaves a log that does not determine the graph |
| KnowledgeGraph.TornDeleteInStepIff | internal/core/kg_service.go:222-230 | after a deletion without a transaction that fails halfway log and graph are in step if and only if they were before and it removed no row |
| KnowledgeGraph.TornDeleteExample | internal/core/kg_service.go:222-230 | a run in which every publish succeeds and yet the log does not determine the graph |
| KnowledgeGraph.DeletePathsAgree | internal/core/kg_service.go:172-244 | for a stored node both ways of deleting leave the same state, self-loops included; for a missing one only the way without a transaction publishes |
| KnowledgeGraph.InvAlways | internal/core/kg_service.go:82-314 | no dangling edges, valid names and a faithful log are kept over any sequence of operations |
| KnowledgeGraph.NodeShownIff | internal/core/kg_service.go:101-119 | the fold shows a node exactly when some event of the log registers it and no later one deletes it |
| KnowledgeGraph.NodeShownAs | internal/core/kg_service.go:101-119 | and shows it with the type of its registration and the status of the last event about it |
| KnowledgeGraph.RelShownIff | internal/core/kg_service.go:284-298 | it shows a relationship exactly when some event tells of its creation and no later one of its deletion, of another under its identifier, or of the deletion of an end |
| KnowledgeGraphService.ApplyAll | internal/core/kg_service.go:387-412 | in whatever order the map is walked, each of the four known string keys sets its own field and an object under the fifth the properties; other keys and other types of value change nothing |
| KnowledgeGraphService.ValidateNode | pkg/model/validate.go:38-64 | accepts exactly nodes of a known type whose identifier, name, status and owner are not empty |
| KnowledgeGraphService.ValidateRel | pkg/model/relationship.go:63-80 | accepts exactly relationships of a known type whose identifier and ends are not empty |
| KnowledgeGraphService.KGService.PublishEvent | internal/core/kg_service.go:369-381 | an event that fails validation is never stored; one the bus stores may still be reported as failed |
| KnowledgeGraphService.KGService.RegisterNode | internal/core/kg_service.go:82-120 | stores exactly this node when it is valid and new, and then logs its registration and its status as far as the bus takes them; otherwise changes nothing; succeeds exactly when nothing failed |
| KnowledgeGraphService.KGService.UpdateNode | internal/core/kg_service.go:126-166 | replaces a stored node by one with exactly the changes, logs the change of status if there is one and then the update; succeeds exactly when something is changed and each event needed was published |
| KnowledgeGraphService.KGService.DeleteNodeInTx | internal/core/kg_service.go:180-219 | removes the node with all rows that touch it or nothing, and logs the deletion only after the commit |
| KnowledgeGraphService.KGService.DeleteNodeNoTx | internal/core/kg_service.go:222-244 | exactly when no fault is met the node and all its rows go and the deletion is logged; a fault at a row leaves all rows but the first k listed, the outgoing ones first, and the node; a fault at the node leaves it without rows |
| KnowledgeGraphService.KGService.DeleteRelationshipsOfNode | internal/core/kg_service.go:344-364 | removes all incident rows, or, stopped at the k-th call, exactly the first k listed; the calls are as many as outgoing and incoming rows together, a loop counted twice |
| KnowledgeGraphService.KGService.CreateRelationship | internal/core/kg_service.go:259-298 | stores exactly a valid new relationship between stored nodes and logs it as far as the bus takes it; otherwise changes nothing |
| KnowledgeGraphService.KGService.Create | internal/core/rel_repo_sqlite.go:38-73 | inserts exactly when both endpoints are stored and the identifier is new |
| KnowledgeGraphService.KGService.DeleteRelationship | internal/core/kg_service.go:301-314 | removes the row, if there is one, and logs the deletion in any case, except of an empty identifier |
| Placeholders.NumeralDenotes | internal/core/dialect.go:48-61 | the decimal digits written for a number denote that number |
| Placeholders.FillDigits | internal/core/dialect.go:54-60 | filling the 20-byte buffer backwards never leaves it and gives the decimal numeral of every positive int64 |
| Placeholders.WriteInt | internal/core/dialect.go:48-61 | appends the decimal numeral |
| Placeholders.RebindPostgres | internal/core/dialect.go:29-45 | the loop of the core package computes the rewriting, the shortcut for texts without marks included |
| Placeholders.RebindByLibrary | internal/auth/store.go:92-108 | the copies in the auth and usage packages compute the same rewriting |
| Placeholders.RebindKeepsMeaningIff | internal/core/dialect.go:29-45 | binding by number in the rewritten text is binding by position in the original if and only if no digit directly follows a question mark or a dollar sign |
| Placeholders.RebindChangesMeaning | internal/core/dialect.go:29-45 | "?1" then asks for parameter 11, and "$1" for a parameter where none was |
| QueryBuilders.BoundByNumber | internal/core/dialect.go:29-45 | any text assembled from valid fragments shows, after the rewriting, each argument exactly where its own mark stood |
| QueryBuilders.JoinPairs | internal/core/rel_repo_sqlite.go:216-217 | joining conditions and concatenating their arguments keeps the i-th mark with the i-th argument |
| QueryBuilders.QueryForTraversal | internal/core/rel_repo_sqlite.go:193-217 | the query states exactly the conditions of its direction and type filter, each bound to its own value |
| QueryBuilders.RelWordsFit | internal/core/rel_repo_sqlite.go:201-217 | the fixed words of that query contain no mark and no dollar sign, so the theorem applies to it |
| QueryBuilders.ListQuery | internal/core/node_repo_sqlite.go:146-181 | exactly the filters that are set, then limit (100 by default) and offset, each bound to its own value |
| QueryBuilders.ListWordsFit | internal/core/node_repo_sqlite.go:155-179 | the fixed words of the node list query are free of marks |
| QueryBuilders.UsageAggregateQuery | internal/usage/store_sql.go:107-141 | the time range and exactly the filters that are set, each bound to its own value |
| QueryBuilders.UsageWordsFit | internal/usage/store_sql.go:110-141 | the fixed words of the aggregation query are free of marks |
| QueryMeaning.TraversalAsksFor | internal/core/rel_repo_sqlite.go:193-217 | read with their values, the conditions of the traversal query hold of exactly the rows that the traversal means by the node, the direction and the type |
| QueryMeaning.ListAsksFor | internal/core/node_repo_sqlite.go:146-165 | those of the list query hold of exactly the nodes of the type, owner and status as far as these are given |
| QueryMeaning.UsageAsksFor | internal/usage/store_sql.go:107-132 | those of the aggregation query hold of exactly the buckets that the model of its WHERE clause selects |
| BusDelivery.InvStep | internal/core/local_bus.go:100-265 | every step of publishers, dispatcher, replays, subscribers and Close keeps shape, persistence, channels, order, the record of fan-outs, conservation and closing |
| BusDelivery.DeliveredWasStored | internal/core/local_bus.go:100-136 | in every reachable state whatever reached a subscriber was appended to the store earlier and matches its types, and its channel holds the end of its stream within its capacity |
| BusDelivery.StreamsFollowPublishOrder | internal/core/local_bus.go:216-265 | without Replay each stream is a subsequence of the publish-channel order filtered by the types of the subscriber |
| BusDelivery.SubscriberAddsUp | internal/core/local_bus.go:243-265 | per subscriber, deliveries and losses never exceed the number of fan-outs of matching events that had it in their snapshot, and equal it when no fan-out is under way |
| BusDelivery.DeliveriesAndDropsAddUp | internal/core/local_bus.go:251-264 | deliveries plus droppedCount equal the matching pairs of fan-outs and snapshot subscribers |
| BusDelivery.CloseDrains | internal/core/local_bus.go:201-238 | when Close has returned, the dispatcher has made a snapshot for every event on the channel before done was closed, in channel order, and has offered the event to everyone in it |
| BusRuns.FannedRuns | internal/core/local_bus.go:243-265 | an undisturbed fan-out is a run of the protocol, whatever the order of the subscriber map, and offers the event to the whole snapshot |
| BusRuns.OfferFirst | internal/core/local_bus.go:251-264 | offering to one subscriber first makes no difference to the outcome |
| BusRuns.ServedMeans | internal/core/local_bus.go:251-264 | a subscriber that is offered some events while nobody receives gets or loses each one of its types, and gets them all, in order, when it has room for them |
| BusProtocol.WantedAt | internal/core/local_bus.go:251-254 | the events of its types stand at exactly the places with a type it named, or at all places if it named none |
| BusRuns.FannedServes | internal/core/local_bus.go:243-265 | an undisturbed fan-out serves exactly the subscribers of that moment with the event, and is recorded as offered to all of them |
| BusRuns.ReplayedRuns | internal/core/local_bus.go:176-193 | a replay is a run that stores nothing and leaves the publish channel alone |
| BusRuns.ReplayedServes | internal/core/local_bus.go:188-192 | a replay begins one fan-out for each event in turn, each offered to everyone subscribed: each gets, of the events of its types, in order, as many as it has room for and loses the others, and nobody else is touched |
| BusRuns.DrainedServes | internal/core/local_bus.go:226-236 | draining serves all subscribers with everything on the channel, in order |
| BusRuns.ClosedRuns | internal/core/local_bus.go:201-209 | wherever the dispatcher stands, Close is a run that completes the event in hand and fans out everything left on the channel in order; a second Close does nothing |
| BusRuns.ClosedServes | internal/core/local_bus.go:201-238 | Close serves those still waiting for the event in hand with it, and then everyone subscribed with all that is on the channel |
| BusRuns.ReachableIsSound | internal/core/local_bus.go:201-238 | what Close builds on holds in every reachable state |
| BusRuns.StillReachable | internal/core/local_bus.go:100-265 | so whatever holds in every reachable state holds after each of these methods |
| LocalBus.LocalBus.CheckOpen | internal/core/local_bus.go:106-110 | a closed bus is refused, an open one lets the publisher on |
| LocalBus.LocalBus.Persist | internal/core/local_bus.go:120-127 | an event that is invalid or not stored goes no further |
| LocalBus.LocalBus.Send | internal/core/local_bus.go:130-135 | enters the channel, or reports the closed bus, each only when enabled, and waits exactly when neither is |
| LocalBus.LocalBus.Subscribe | internal/core/local_bus.go:142-163 | is the protocol step, with 256 as default buffer |
| LocalBus.LocalBus.Unsubscribe | internal/core/local_bus.go:164-168 | is the protocol step |
| LocalBus.LocalBus.Fanout | internal/core/local_bus.go:243-265 | snapshot and loop give exactly one offer to each subscriber of that moment and count exactly the full ones |
| LocalBus.LocalBus.Offer | internal/core/local_bus.go:255-263 | an event of its types is delivered when there is room, otherwise dropped and counted; any other event changes nothing |
| LocalBus.LocalBus.Drain | internal/core/local_bus.go:226-236 | the inner loop after close empties the channel |
| LocalBus.LocalBus.Replay | internal/core/local_bus.go:188-192 | one fan-out for each event in turn to everyone subscribed, each offered to all of them; every subscriber gets, of the events of its types, in order, as many as fit, and loses the others; those not subscribed are unchanged |
| LocalBus.LocalBus.Close | internal/core/local_bus.go:201-209 | closes an open bus, waits until the dispatcher has ended, wherever it stands, and changes nothing on a closed bus |
| EventStore.WithDefaults | internal/core/event_store.go:73-88 | positive values are kept, others replaced by seven days and a million events |
| EventStore.CompactionIsSuffixIff | internal/core/event_store_memory.go:113-122 | the in-place compaction removes a prefix if and only if no expired entry follows a fresh one |
| EventStore.CleanupIsExact | internal/core/event_store_memory.go:101-132 | under a clock that never goes back a cleanup removes the shortest prefix that leaves nothing expired and at most MaxEvents entries |
| EventStore.NewStoreRetains | internal/core/event_store_memory.go:41-132 | after any run of Append and Cleanup under such a clock the entries are a contiguous end of the append history |
| EventStore.MemoryEventStore.Append | internal/core/event_store_memory.go:41-57 | adds exactly one entry at the end, growing the array when it is full; every error leaves the contents unchanged |
| EventStore.Compact | internal/core/event_store_memory.go:113-122 | the loop that writes into the array it reads keeps exactly the fresh entries, in order, and counts the others |
| EventStore.MemoryEventStore.Cleanup | internal/core/event_store_memory.go:101-132 | leaves exactly the newest MaxEvents fresh entries and returns how many went |
| EventStore.MemoryEventStore.Query | internal/core/event_store_memory.go:60-98 | the matching events ordered by timestamp, cut to offset and limit with every out-of-range value clamped |
| EventStore.MatchQuery | internal/core/event_store_memory.go:153-169 | holds exactly for events of a wanted type and source within the closed time range, each as far as it is given |
| EventStore.Page | internal/core/event_store_memory.go:89-97 | the branches on offset and limit amount to a clamped window |
| EventStore.MemoryEventStore.Close | internal/core/event_store_memory.go:135-143 | closes and empties once |
| Replay.MatchReplay | internal/core/nats_bus.go:466-489 | accepts exactly the events of the types, the source and the closed time range asked for, as the filter of the local store does |
| Replay.WantedIsAsked | internal/core/nats_bus.go:440-449 | the filtered stream is, in stream order, exactly the messages that can be decoded and were asked for |
| Replay.NatsReplay | internal/core/nats_bus.go:402-463 | for any fetch sizes and failures exactly the matches up to where reading stopped, within the limit; the first Limit matches when no fetch fails. A failed fetch is returned as success |
| Replay.FailedFetchCompleteIff | internal/core/nats_bus.go:426-445 | what is returned after a failed fetch is what was asked for if and only if no message from there on matches |
| Replay.FailedFetchExample | internal/core/nats_bus.go:426-445 | with one stored event and a failing first fetch nothing is returned, without an error |
| Replay.LocalReplay | internal/core/local_bus.go:176-186 | returns what the query of the store gives for the same filter and limit |
| Replay.ReplaysAgree | internal/core/nats_bus.go:402-463 | on a log whose timestamps strictly increase both replays return the same sequence |
| Replay.ReplaysAgreeIff | internal/core/event_store_memory.go:85-97 | for any limit they must agree if and only if each event returned is strictly earlier than all later matches, repeated events aside |
| TimeText.TextOrder | internal/core/event_store_sqlite.go:116-120 | for any two times of the years 0 to 9999, the RFC3339Nano texts are in the order of time, unless they lie in one second and the written fraction of one continues that of the other: then in the opposite order |
| TimeText.TextOrderIff | internal/core/event_store_sqlite.go:116-120 | so text order decides about time if and only if the two do not clash in this way |
| TimeText.TextOfCivil | internal/core/event_store_sqlite.go:116-120 | each date and time of day of these years stands in the text of its instant |
| TimeText.LeapDayText | internal/core/event_store_sqlite.go:116-120 | the text of an instant on the leap day of 2024, half a second past 12:34:56 |
| TimeText.CenturyText | internal/core/event_store_sqlite.go:116-120 | the text of the first of March 2100, which is not a leap year |
| SqliteEvents.FoundIff | internal/core/event_store_sqlite.go:156-163 | an event that is asked for is found if and only if its time does not clash with a bound of the query |
| SqliteEvents.MissedEvent | internal/core/event_store_sqlite.go:160-163 | an event on a whole second is not found by a query up to a later time within that second |
| SqliteEvents.ReturnedOutsideIff | internal/core/event_store_sqlite.go:146-163 | one that is not asked for is returned if and only if kind and source match and it clashes with exactly those bounds on whose wrong side it lies |
| SqliteEvents.ReturnedTooEarly | internal/core/event_store_sqlite.go:156-159 | an event on a whole second is returned by a query from a later time within that second on |
| SqliteEvents.OrdersAgreeIff | internal/core/event_store_sqlite.go:165-169 | sorting the stored texts is sorting by time, for every arrangement, if and only if no two of the events clash |
| SqliteEvents.StoresAgree | internal/core/event_store_sqlite.go:129-205 | without a clash the SQLite store and the memory store may return the same, for every filter, offset and limit |
| StoreAgreement.StoresAgreeIff | internal/core/event_store_sqlite.go:129-205 | for any log and query, offset and limit included, the two stores may return the same if and only if they return events at the same times |
| StoreAgreement.WholeAnswersAgreeIff | internal/core/event_store_sqlite.go:145-169 | for a query without offset and limit: if and only if every event is on the same side of the bounds in time and in text and no two events asked for clash |
| SqliteEvents.LaterEventComesFirst | internal/core/event_store_sqlite.go:169-169 | an event on a whole second is returned after one that is up to a second later |
| Import.MergeIsUnion | internal/core/migrate.go:34-41 | the result has the old rows unchanged, the keys of the source rows, and no others |
| Import.FirstRowWins | internal/core/migrate.go:34-41 | a new key gets the value of the first source row that has it |
| Import.CopyRows | internal/core/migrate.go:88-177 | for every batch size: success merges all rows with exact new and skipped counts; a failure anywhere leaves the merge of a prefix, a multiple of the batch size, and of the rows inserted at most one batch is missing |
| Import.CommitBatch | internal/core/migrate.go:102-119 | a commit that is followed by a failed begin still counts as committed |
| Import.Migrate | internal/core/migrate.go:51-81 | nodes before relationships, batch sizes below one mean 500; whatever fails, each table is a merge with a prefix, and no relationship is copied before all nodes are |
| Import.AttemptsReachPrefix | internal/core/migrate.go:48-50 | after any number of interrupted imports the table is one merge with a prefix of the rows |
| Import.AttemptsConverge | internal/core/migrate.go:48-50 | a complete run after them gives what one complete run gives, and a further run changes nothing |
| Import.ImportedHaveEndpoints | internal/core/migrate.go:58-78 | if no source relationship lacks an endpoint, then after any sequence of imports, each stopped anywhere, no relationship they brought in does |
| MigrationSort.SortMigrations | internal/storage/migrator.go:172-178 | the in-place insertion sort by swaps equals the stable sort function |
| MigrationSort.StableSortSorts | internal/storage/migrator.go:171-178 | that function is ascending, a permutation, and keeps migrations of one version in their old order |
| MigrationSort.SortingTwice | internal/storage/migrator.go:171-178 | sorting again changes nothing |
| MigrationRuns.Migrator.Migrate | internal/storage/migrator.go:98-120 | applies an in-order front part of what is pending, executing and recording exactly those; it is stopped by the fault given, or by a version that was applied earlier in the same run, and by nothing else |
| MigrationRuns.Migrator.Apply | internal/storage/migrator.go:145-169 | statements and version record are committed together or not at all; a recorded version makes it fail |
| MigrationRuns.PendingAt | internal/storage/migrator.go:109-112 | pending are, in order, exactly the migrations whose version was not recorded when the run began |
| MigrationRuns.FirstsAt | internal/storage/migrator.go:109-112 | the firsts are, in order, exactly the migrations that come first with their version and whose version is not recorded |
| MigrationRuns.RunsApplyPrefix | internal/storage/migrator.go:98-169 | whatever runs there were and wherever they stopped, what was applied is a prefix of the first migration of each pending version, each once and in order |
| MigrationRuns.FinalRunCompletes | internal/storage/migrator.go:98-120 | a final successful run leaves what a single clean run leaves, and nothing is pending afterwards |
| MigrationRuns.RepeatedMigrate | internal/storage/migrator.go:98-120 | the same for repeated calls of Migrate, each of which sorts again: together they apply a prefix of the firsts, each once and in order |
| MigrationRuns.FinalMigrateCompletes | internal/storage/migrator.go:98-120 | a call that gets through everything, after any others, leaves what one clean call leaves, and a further call finds nothing to do |
| MigrationRuns.NoneIsSkippedIff | internal/storage/migrator.go:109-112 | every pending migration gets applied in the end if and only if no two pending ones share a version |
| MigrationRuns.DuplicateIsSkipped | internal/storage/migrator.go:98-169 | of two migrations of version 1 the second is never executed: the first run stops at it, the next finds nothing pending |
| MigrationRuns.DistinctVersions | internal/storage/migrator.go:98-120 | with distinct versions what is applied is all the pending migrations in ascending order |
| UsageTotals.InItsBucketOnly | internal/usage/collector.go:169-170 | a record lies in its bucket [start, end) and in no other bucket of the grid |
| UsageTotals.Aggregate | internal/usage/collector.go:161-196 | one bucket for each key, bounds and location of the bounds that some record has, with exactly the sum of these records; so over any set of buckets they carry exactly what the records carry, for every map order |
| UsageTotals.OneBucketPerSlot | internal/usage/collector.go:163-181 | with all times in one location there is one bucket for each key and bounds |
| UsageCollector.TotalsAgree | internal/usage/collector.go:92-156 | for any flush timing, interleaving and bucket interval, the table says about any set of buckets what the accepted records say, short of those queued, being flushed, or in a failed batch |
| UsageCollector.CallsAreCounted | internal/usage/collector.go:92-104 | Record calls equal dropped plus queued plus drained, and the queue keeps to its capacity |
| UsageCollector.NothingLostWithoutLoss | internal/usage/collector.go:136-155 | in a run in which no batch fails nothing is lost |
| UsageCollector.NoLossNoGap | internal/usage/collector.go:92-156 | and then the table says what the accepted records say, short only of those queued or being flushed |
| UsageCollector.FlushedAreRows | internal/usage/collector.go:148-155 | the count of flushed buckets is the number of rows added |
| UsageQueries.QueriesSeeRecords | internal/usage/store_sql.go:102-178 | once everything is flushed and nothing failed, each group of a query sums exactly the accepted records whose bucket its text comparisons select |
| UsageQueries.QueriesSeeTime | internal/usage/store_sql.go:102-131 | and these are the records whose bucket touches the time range, if no bound of their buckets clashes with a bound of the query |
| UsageQueries.FoundIff | internal/usage/store_sql.go:110-113 | a bucket that touches the time range is selected if and only if neither text comparison is between clashing times |
| UsageQueries.AddedIff | internal/usage/store_sql.go:110-113 | one that does not touch it is selected if and only if the comparison that should keep it out is between clashing times and the other is not |
| UsageQueries.InRangeIsSeenIff | internal/usage/store_sql.go:110-131 | a record within the time range and the filters is seen if and only if no bound of its bucket clashes with the query |
| UsageQueries.MissedIff | internal/usage/store_sql.go:110-113 | with buckets of whole seconds it is missed if and only if the range ends within the first second of its bucket, at a fraction of a second |
| UsageQueries.RecentRecordIsMissed | internal/api/rest/handler.go:164-175 | a query with the default range, made half a second past 12:34 on the first of June 2025, does not see a record made 0.3 seconds before: its minute starts at a text that ends in Z, the range ends at the same text with .5Z |
| UsageQueries.EarlierMinuteIsAdded | internal/usage/store_sql.go:110-111 | a query from half a second past 12:34 on counts the minute before 12:34, for the same texts |
| UsageCollector.InvStep | internal/usage/collector.go:92-156 | every step of callers and flushers keeps the accounts of records, totals and calls |
| UsageCollector.UsageCollector.constructor | internal/usage/collector.go:52-64 | values that are not positive become one minute and 10000 records; the collector starts empty |
| UsageCollector.UsageCollector.Record | internal/usage/collector.go:92-104 | never waits; a full queue drops and counts the record |
| UsageCollector.UsageCollector.FlushAll | internal/usage/collector.go:124-156 | empties the queue; with a store and no failure the exact totals of the queue are appended to the table and counted and nothing is lost, otherwise the table is unchanged and exactly this batch is lost |
| UsageCollector.UsageCollector.InsertBatch | internal/usage/store_sql.go:50-99 | all buckets or none are inserted, and success reports their number |
| BufferQueue.PushesAreAccountedFor | internal/pipeline/telemetry/metrics.go:64-101 | however the three selects interleave, finished pushes equal pops plus Len plus drops, and Len stays within the limit |
| BufferQueue.PopsInOrder | internal/pipeline/telemetry/metrics.go:86-101 | consumers get items in the order in which they entered |
| BufferQueue.NewestIsKept | internal/pipeline/telemetry/metrics.go:61-84 | with a single producer every finished push entered the queue, so the newest item is never the one lost |
| BufferQueue.NewestCanBeLost | internal/pipeline/telemetry/metrics.go:77-82 | for every size, from any state, two producers that are not pushing can bring about that one loses its item at its own push |
| BufferQueue.NeverLostIff | internal/pipeline/telemetry/metrics.go:61-84 | for every size and set of producers: no push ever loses its own item if and only if there is at most one producer |
| BufferQueue.RetryRefusedIff | internal/pipeline/telemetry/metrics.go:77-82 | a retry is refused exactly when other producers have entered, since room was made, as many items as there was room and items left |
| BufferQueue.LossNeedsAnother | internal/pipeline/telemetry/metrics.go:64-82 | so for a push to lose its own item another producer must have entered in between |
| BufferQueue.BufferQueue.First | internal/pipeline/telemetry/metrics.go:65-68 | is the first select |
| BufferQueue.BufferQueue.Second | internal/pipeline/telemetry/metrics.go:70-75 | is the second select: evicts and counts the oldest, or finds nothing |
| BufferQueue.BufferQueue.Third | internal/pipeline/telemetry/metrics.go:77-82 | is the third select: enters, or drops and counts the new item |
| BufferQueue.BufferQueue.Push | internal/pipeline/telemetry/metrics.go:64-84 | undisturbed, the new item is last and the oldest went if there was no room |
| BufferQueue.BufferQueue.TryPop | internal/pipeline/telemetry/metrics.go:94-101 | returns the oldest item, or none when empty |
| TleText.SplitGroups | internal/pipeline/telemetry/tle_parser.go:80-99 | laid end to end the groups are exactly the lines with something but white space in them, trimmed and in order, and they are the longest stretches of such lines |
| TleText.TrimTakesWhiteEnds | internal/pipeline/telemetry/tle_parser.go:85-85 | trimming takes white space from the two ends of a line and nothing else, and leaves none there |
| TleText.TrimIsDetermined | internal/pipeline/telemetry/tle_parser.go:85-85 | and is determined by that |
| TleText.SharedIff | internal/pipeline/telemetry/tle_parser.go:84-94 | two lines with something in them share a group if and only if no blank line stands between them |
| TleText.JoinOfLines | internal/pipeline/telemetry/tle_parser.go:81-81 | the lines of a text joined by newlines are the text |
| TleText.SplitOfJoin | internal/pipeline/telemetry/tle_parser.go:80-99 | joining non-empty groups of trimmed non-empty lines with blank lines and splitting again gives the same groups |
| TleText.JoinIsNormalForm | internal/pipeline/telemetry/tle_parser.go:80-99 | splitting any text gives such groups, and joining them is a normal form |
| TleText.ExtractLines | internal/pipeline/telemetry/tle_parser.go:104-131 | the first line that starts with "1 " and its successor, which must start with "2 "; each error exactly when it applies |
| TleChecksum.ValidateLine | internal/pipeline/telemetry/tle_parser.go:236-247 | accepts exactly lines of 69 characters with the expected number and a blank; the errors in their order |
| TleChecksum.VerifyChecksum | internal/pipeline/telemetry/tle_parser.go:253-275 | accepts exactly the lines of 69 characters whose last is the digit of the sum modulo ten, where each digit in front counts its value and each minus sign one, although the code subtracts bytes with wrap-around |
| TleChecksum.SubstitutionUnnoticedIff | internal/pipeline/telemetry/tle_parser.go:249-275 | which substitutions of one character go unnoticed: in front of the check digit exactly 1 for a minus sign and back, and 0 and everything that is neither digit nor minus sign for each other |
| TleChecksum.DigitErrorsAreNoticed | internal/pipeline/telemetry/tle_parser.go:249-275 | changing any one digit of an accepted line, the check digit included, to another digit is noticed |
| TleChecksum.ExchangeIsNotNoticed | internal/pipeline/telemetry/tle_parser.go:258-269 | exchanging two characters in front of the check digit never is |

## Left out

- Finer interleavings of the command pipeline than the atomic steps above; real time, beyond the order of steps.
- Removal from the priority queue and the status query methods, which no protocol step uses; the unused status "timeout".
- Events the scheduler publishes on the bus and the latency metric: they feed nothing back into the protocol.
- Adapter goroutines that outlive a timeout hold no slot in the code and none in the model; they are only counted.
- Creation and update times of nodes, plugin hooks, and concurrent calls of the knowledge graph service.
- SQL engines: a table is a map or a sequence, a query its meaning, a transaction a private copy that replaces the table at commit. Grouping and summing by the usage query is therefore the sum over the selected rows; its MIN and MAX columns and the order of its rows are not modelled.
- NATS: a stream is a sequence that does not grow during a replay, and a fetch that does not fail brings nothing only at its end.
- Retention by the SQLite event store, and years outside 0 to 9999, which RFC 3339 cannot write.
- Collations: texts are compared byte by byte, as SQLite does and PostgreSQL with the C collation.
- The order of events with equal timestamps and of commands with equal arrival times, which the sort calls leave open.
- Publish racing Close may persist an event that is never dispatched; append order and channel order may differ between publishers. Neither is claimed otherwise.
- The background cleanup loop of the bus and the timers of the collector: when they act is arbitrary in the models.
- Wrap-around of 64-bit counters and usage sums.
- Splitting a migration's text into statements: a migration is applied as a whole or not at all.
- Invalid UTF-8 in element set texts; the numeric fields, epochs and orbit geometry of a set.
- Configuration, HTTP, gRPC, command line, authentication, plugins and codecs.
- UsageTotals.Aggregate: sums are unbounded integers, because a wrapped total has no meaning the source promises.
- Placeholders.WriteInt: a negative number is written as nothing, as the source does; its callers only pass positive ones.
