# Verification of the WaitAgent relay

WaitAgent nodes reach each other through a relay: every node keeps one multiplexed
link to it, and the relay routes streams between links. This project models the
relay's data plane and the sequential cores around it in Dafny and proves what they
promise, over every run, every interleaving or every input.

`dafny verify dfyconfig.toml` checks everything.

## How the model is laid out

| files | what they model |
|---|---|
| `frames.dfy`, `sequences.dfy` | wire frames, lanes (one per stream, one for control), byte counts; regrouping of concatenations |
| `scheduler.dfy` | the egress scheduler of a link as a state machine: each lock section, channel receive, notify and socket write is one step of the consumer or the writer task |
| `scheduler_*.dfy` | its accounting, lane order, wake-ups, flush, control traffic, overtaking, fairness, bursts and idle buckets; `scheduler_lock.dfy` has the lock sections as in-place code |
| `routing.dfy`, `routing_teardown.dfy` | the table of mirrored stream legs and its refinement to a set of two-way streams |
| `forwarding*.dfy` | the whole relay: link tasks, routing table and one scheduler per link; its routes over runs, its progress, and ids used again |
| `connections.dfy`, `presence*.dfy` | the connection table and watchers; announcements of presence over runs, what watchers end up believing, and how announcements overtake each other |
| `capacity.dfy`, `capacity_tight.dfy` | admission checks interleaved with the changes they admit |
| `link_client*.dfy` | a node's relay client: watch interests and admin requests against link replacement |
| `der*.dfy` | the DER walker that finds a certificate's public key |
| `toml_*.dfy` | the two schemas that share `relay.toml` |
| `hooks*.dfy` | the reconciler of an agent's hook configuration |
| `enrollment*.dfy` | enrollment tokens |
| `calendar.dfy` | day counts since the Unix epoch |

A state machine is a datatype with `Enabled` and `Apply`; `Legal` and `Exec` run a
sequence of actions, and what the scheduler of the operating system or a peer
decides is a parameter of the action. Objects that are updated in place are classes,
loops are methods, and both are proved against functions that the lemmas are about.

## Where the code does not do what its text says

- The scheduler's header promises that no stream gets more than one round budget
  ahead of a backlogged one. Credit survives an empty queue, so that holds over all
  runs exactly when a bucket holds no more than a round budget:
  `SchedulerBurstRuns.NeverAheadExactly`, with `SchedulerBurstRuns.GetsAhead` for the
  run that breaks it otherwise. `SchedulerFairness.BackloggedStreamsShareFairly`
  states what does hold.
- It also says priority frames always precede bulk data. The priority drain and the
  round-robin pass are separate lock sections, so one pass can come first:
  `SchedulerOvertaking.HeartbeatOvertaken`. Bulk data overtakes a queued control frame
  exactly from that gap on until the writer has written its batch,
  `SchedulerOvertaking.OvertakenExactly`, and never in two passes,
  `SchedulerControl.ControlOvertakenByOnePass`.
- `RoutingTable::open` overwrites: `Routing.OverwriteBreaksMirror`. Stream counts are
  right throughout a run exactly when no open takes an end still in use:
  `ForwardingRoutes.MirroredExactly`.
- An opener may reuse the id of a stream it closed, and a frame of the old stream can
  still arrive in the new one: `ForwardingReuse.OldCloseEndsNewStream`. Which
  reopenings keep reading order, and which can break it, is exact in
  `ForwardingReopen.ReopenedInOrder` and `ForwardingMisorder.MisordersExactly`.
- A comment in `handle_open_stream` leaves the pair of a dying target to its teardown.
  When the target leaves between the lookup and the open, that teardown is over and the
  pair stays: `ForwardingRoutes.StrandedRoute`. A leaving link also strands the legs it
  no longer leads back to because an end was overwritten:
  `ForwardingRoutes.OverwrittenRoute`. There is no third way:
  `ForwardingRoutes.NoRouteToLeftLinkExactly`.
- A purged link's queue is said never to be touched again. An announcement that read it
  as a watcher before still tells it: `PresenceRaces.DeadQueueTouchedExactly`.
- Watchers are said to converge. The table and the presence hub have separate locks, so
  a node that is back before its old link announced the loss ends up announced offline:
  `PresenceRaces.OvertakenAnnouncement`, exactly as
  `PresenceRaces.ChangeMisleadsExactly` says. A watch whose target leaves between the
  table lookup and the replay keeps reporting it online: `PresenceRaces.StaleReplay`,
  `PresenceRaces.OvertakenReplay`, exactly as `PresenceWatch.WatcherConverges` says.
- Admission limits can be overshot, because check and change are separate critical
  sections: by exactly as many as `Capacity` allows and `CapacityTight` reaches.
- A refused `Watch` on a link that lives on stays undeclared:
  `LinkClientWatch.RefusedWatchStaysUndeclared`, exactly then:
  `LinkClientWatch.DeclaredExactly`.
- Admin requests in flight are said to fail when the link drops. The drop fails none,
  `LinkClientAdmin.DropFailsNothing`; the drain of the next link does, exactly as
  `LinkClientAdmin.LinkLostExactly` says.
- A DER length of more than eight significant octets is truncated:
  `DerLayout.LongLengthIsTruncated`, with the exact condition in
  `DerLayout.CompleteExactly`.
- Reconciling hooks is not idempotent when a kept line ends in a carriage return:
  `HooksIdempotent.ReturnsAreLostOneAtATime`, exactly then:
  `HooksIdempotent.IdempotentExactly`.
- Days beyond the end of their month are accepted:
  `Calendar.OverlongDayCountsOn`.

## Model

| member | source | states |
|---|---|---|
| SchedulerOrder.LaneOrder | src/infra/relay_scheduler.rs:391-630 | at every step of every consumer/writer interleaving, the frames of each stream (and of control) on the wire, in the writer's hand, queued, in the consumer's hand and in the channels concatenate to exactly the frames accepted, in order; after a socket failure the wire is still a prefix, so no Close overtakes its Data |
| SchedulerOrder.QueuesStayBounded | src/infra/relay_scheduler.rs:391-417 | in every run the byte totals are exact sums, and both the per-stream cap and the link budget hold |
| SchedulerOrder.ChannelsStayBounded | src/infra/relay_scheduler.rs:326-328 | over every run neither ingress channel holds more than its capacity |
| SchedulerAccounting.PassBacklog | src/infra/relay_scheduler.rs:535-595 | a round-robin pass, in whatever order it visits the map, conserves the queued bytes and the queued frames: what left the buckets is what is in the batch |
| SchedulerAccounting.RefusedMeansBacklog | src/infra/relay_scheduler.rs:321-326 | with the configuration floors a frame is refused only while something is queued, so a parked frame has someone to wait for |
| SchedulerWakeup.NoLostWakeup | src/infra/relay_scheduler.rs:441-629 | in every run, a writer asleep without a permit and without a notify on its way has nothing queued and an open ingress; a frame parked without a permit has a backlog before it and a live writer that is awake or about to be woken |
| SchedulerFlush.BurstIsBounded | src/infra/relay_scheduler.rs:427-630 | from any reachable state the two tasks take at most a computed number of steps on their own: no busy polling |
| SchedulerFlush.RestMeansDelivered | src/infra/relay_scheduler.rs:596-630 | where nothing can move, every accepted frame is on the wire unless the socket failed, and the channels are empty even then; the consumer has exited exactly when the producers are gone, the writer exactly when they are or the socket failed |
| SchedulerFlush.FlushOnTeardown | src/infra/relay_scheduler.rs:496-622 | once all producers are gone every run is finite, and at its end both tasks have exited with everything accepted written |
| SchedulerFlush.DroppedProducersFlush | src/infra/relay_scheduler.rs:496-622 | from the moment the last producer is dropped nothing more is accepted, and at rest both tasks have exited with everything accepted written |
| SchedulerFlush.AnyLimitsFlush | src/infra/relay_scheduler.rs:321-326 | whatever limits a scheduler is asked for, zeros included, the floors it applies make it deliver everything accepted |
| SchedulerControl.ControlOvertakenByOnePass | src/infra/relay_scheduler.rs:508-612 | control frames classified by some point are all on the wire, in order, before the second round-robin pass after it |
| SchedulerOvertaking.OvertakenExactly | src/infra/relay_scheduler.rs:508-612 | in every reachable state with a queued control frame and a backlog, some continuation writes bulk data ahead of it if and only if the writer stands between the priority drain and the round-robin pass or holds bulk frames of its last pass |
| SchedulerOvertaking.OvertakenByPassExactly | src/infra/relay_scheduler.rs:508-612 | bulk data that no pass has taken out yet gets ahead of it if and only if the writer stands between the drain and the pass |
| SchedulerOvertaking.HeartbeatOvertaken | src/infra/relay_scheduler.rs:45-48 | for every configuration a run in which data is on the wire while a heartbeat waits in the priority queue |
| SchedulerControl.ParkedFrameDoesNotBlockControl | src/infra/relay_scheduler.rs:441-494 | over every run of the consumer alone from a reachable state, however long a bulk frame stays parked: the run is bounded, and where it stops every control frame it held or had queued is in the priority queue, in order, and without a permit the parked frame is where it was |
| SchedulerFairness.EveryBacklogIsServed | src/infra/relay_scheduler.rs:550-592 | for any budget, every stream with a backlog sends a non-empty prefix of its queue in every pass |
| SchedulerFairness.NonNegativeCreditRun | src/infra/relay_scheduler.rs:551-575 | with a budget of at least one maximal frame no deficit is ever negative, over every run |
| SchedulerFairness.CreditBalance | src/infra/relay_scheduler.rs:551-575 | over any window in which a stream stays backlogged, bytes sent plus the change in credit equal what it was granted |
| SchedulerFairness.BackloggedStreamsShareFairly | src/infra/relay_scheduler.rs:531-592 | over any window in which two streams stay backlogged, the bytes they send differ by less than two maximal frames |
| SchedulerBurst.NeverAheadFromExactly | src/infra/relay_scheduler.rs:43-46 | two buckets with given credit keep within one round budget of each other, whatever their queues hold, if and only if the budget covers a frame and the first has no credit saved or a bucket too small to spend it |
| SchedulerBurst.RoundLimitedFromExactly | src/infra/relay_scheduler.rs:43-46 | a visit stays within the round budget and one frame, whatever the queue holds, if and only if the bucket enters it with at most one frame of credit or cannot hold more |
| SchedulerBurstRuns.NeverAheadExactly | src/infra/relay_scheduler.rs:43-46 | over all runs and all passes, no stream sends more than one round budget beyond another that is backlogged, if and only if a bucket holds no more than a round budget |
| SchedulerBurstRuns.GetsAhead | src/infra/relay_scheduler.rs:43-46 | in every other configuration a legal run from the start, and a pass of it that breaks the promise |
| SchedulerBurstRuns.RoundLimitedExactly | src/infra/relay_scheduler.rs:43-46 | over all runs and all passes, no stream sends more than the round budget and one frame, if and only if a bucket holds no more than that |
| SchedulerBurstRuns.CreditIsUnbounded | src/infra/relay_scheduler.rs:551-575 | for every configuration, stream and amount there is a legal run that leaves the stream with that much credit and an empty queue |
| SchedulerLock.SharedCell.TryEnqueue | src/infra/relay_scheduler.rs:391-417 | the capacity check and the push, in place, compute the specified new state and outcome |
| SchedulerOrder.DrainKeepsDownstream | src/infra/relay_scheduler.rs:510-523 | draining the priority queue leaves, lane by lane, the frames on the wire, in hand and queued as they were, in order |
| SchedulerControl.DrainTakesAll | src/infra/relay_scheduler.rs:510-523 | after a drain every control frame classified so far is on the wire or in the writer's hand, in order |
| SchedulerLock.SharedCell.RoundRobinPass | src/infra/relay_scheduler.rs:535-599 | the pass in place equals the specified pass over some visiting order, with its batch and its more-work answer |
| SchedulerIdle.ReapedAfterEightPasses | src/infra/relay_scheduler.rs:593-595 | over every run that enqueues nothing for a stream whose bucket was just emptied, after n passes the bucket is there if and only if n is less than 8, its credit unchanged; once it is gone the stream's next frame finds a bucket without credit |
| SchedulerIdle.NoStaleBucket | src/infra/relay_scheduler.rs:549-595 | in every reachable state every bucket is backlogged with no idle passes, or has been idle for fewer than eight |
| SchedulerLock.VisitBuckets | src/infra/relay_scheduler.rs:549-595 | the loop over the map, in any order, yields the specified batch, buckets and freed bytes |
| SchedulerLock.VisitBucket | src/infra/relay_scheduler.rs:550-592 | one visit, with the inner loop and the one-frame floor, yields the specified frames and bucket |
| SchedulerLock.PopAffordable | src/infra/relay_scheduler.rs:558-575 | the inner loop takes the longest affordable prefix and leaves the credit that remains |
| Routing.OpenKeepsMirrorExactly | src/infra/relay_routing.rs:162-188 | opening keeps the leg map a mirror if and only if the two ends differ and neither is in use by another stream |
| Routing.OverwriteBreaksMirror | src/infra/relay_routing.rs:162-188 | reopening an end towards another peer leaves the old peer's leg without its mirror |
| Routing.OpenAddsStream | src/infra/relay_routing.rs:162-188 | with fresh ends, opening adds exactly one two-way stream with both sides open |
| Routing.CloseRefinesHalfClose | src/infra/relay_routing.rs:203-222 | closing a leg is half-close of the stream: the first close marks its side and is forwarded to the other end, the close of the last open side ends the stream, a repeated close changes nothing; it is unknown if and only if no stream has the end, swallowed if and only if the end had closed |
| Routing.TeardownRemovesStream | src/infra/relay_routing.rs:227-232 | tearing a pair down removes that stream and no other |
| Routing.LookRefines | src/infra/relay_routing.rs:191-199 | lookup answers unknown, closed or open as the set of streams says |
| Routing.TwoLegsPerStream | src/infra/relay_routing.rs:235-237 | a mirrored leg map has exactly two legs per stream |
| RoutingTeardown.ConnectionTeardown | src/infra/relay_routing.rs:242-258 | tearing a connection down removes exactly the streams touching it, self-routes included, leaves every other leg unchanged, and names each removed stream exactly once |
| RoutingTeardown.RoutingTable.OpenRoute | src/infra/relay_routing.rs:162-188 | the in-place insert of both legs, which with fresh ends adds exactly one two-way stream and keeps the mirror |
| RoutingTeardown.TeardownAllExactly | src/infra/relay_routing.rs:242-258 | mirrored or not, a leg survives a teardown if and only if no turn of it removes that leg as its own or as the peer it leads to; the snapshot's keys are gone and survivors unchanged |
| RoutingTeardown.RoutingTable.CloseLeg | src/infra/relay_routing.rs:203-222 | the in-place half-close and its answer |
| RoutingTeardown.RoutingTable.LookupLeg | src/infra/relay_routing.rs:191-199 | reading the table in place answers unknown, closed or open with the leg, as the specification of `Routing.LookRefines` says |
| RoutingTeardown.RoutingTable.TeardownPair | src/infra/relay_routing.rs:227-232 | the in-place removal of a pair and the leg it returns |
| RoutingTeardown.RoutingTable.StreamCount | src/infra/relay_routing.rs:235-237 | half the legs is the number of two-way streams |
| RoutingTeardown.RoutingTable.TeardownConnection | src/infra/relay_routing.rs:242-258 | the in-place teardown ends exactly the connection's streams and returns one notice per stream, which names the other end: its own stream id and, where legs name their peer's link, that link |
| RoutingTeardown.TeardownKeys | src/infra/relay_routing.rs:242-258 | the loop over the key snapshot equals the specified teardown and its notices |
| Routing.AllocatedIdsCollideExactly | src/infra/relay_link.rs:471 | two ids from a link's 32-bit allocator, which starts at 2 and steps by 2, are equal exactly when a whole cycle of 2^31 lies between them |
| Forwarding.EndToEnd | src/infra/relay_link.rs:361-389 | over every run of the whole relay and for every stream id of a link that was opened at most once, whatever happens to the others: the Data, Window and Close frames on the link's wire under it are the first of those routed to it, in order: each has the link's own stream id and the kind, payload and credit of the frame read; all were read under one key; nothing follows a Close; an id never opened never appears |
| Forwarding.RoutedIsRead | src/infra/relay_link.rs:361-389 | what counts as routed to a stream is exactly what links read, in that order, under keys whose leg is there, has not closed and leads to it |
| Forwarding.RelayIdsAreOpenedOnce | src/infra/relay_link.rs:471-481 | an id the relay allocates on a link is opened at most once while the link has had no more than 2^31 of them, whatever openers do with their own ids |
| Forwarding.OpenTakesNextId | src/infra/relay_link.rs:471-481 | over every run, the route opened to a link after k others leads to that link's stream 2 + 2k, in 32 bits, on its own queue, and that stream leads back |
| ForwardingReuse.InReadingOrderExactly | src/infra/relay_link.rs:361-389 | that every id opened at most k times carries what was routed to it in reading order, over all runs, holds if and only if k is at most 1 |
| ForwardingReuse.OldCloseEndsNewStream | src/infra/relay_link.rs:371-395 | a run in which an opener reuses an id, gets data of the new stream and, queued behind it, the close of the old one |
| ForwardingReopen.ReopenedInOrder | src/infra/relay_link.rs:361-389 | over every run and for every id however often opened: if every open of it finds no leg of a present link leading to it and no frame for it held by another link than a new peer that is present, its wire holds the first of the frames routed to it, kind, payload and credit unchanged, in reading order |
| ForwardingMisorder.MisordersExactly | src/infra/relay_link.rs:371-481 | at the first open of an unused id after such a run, some continuation without another open of it makes its link's queue take frames out of reading order if and only if another link than the new peer holds a frame for it, the new peer is present and the link still takes frames |
| ForwardingProgress.QueueingNeverStuck | src/infra/relay_link.rs:361-395 | in every reachable state of the whole relay, the scheduler a link task waits for takes at most a computed number of steps on its own, and where it stops the waiting link can queue its frame or give it up, so links never deadlock on each other's queues |
| Forwarding.InvariantRun | src/infra/relay_link.rs:418-563 | the invariants behind it, over every run, ids reused or not: legs lead where their key was opened, tasks queue to the route they looked up, a key opened once is routed nothing after a close, every link's scheduler is sound |
| ForwardingRoutes.MirroredExactly | src/infra/relay_routing.rs:162-188 | throughout a run the legs pair off into two-way streams if and only if no open takes an end still in use |
| ForwardingRoutes.StreamCountIsExact | src/infra/relay_routing.rs:235-237 | then half the legs is the number of streams at every point of the run |
| ForwardingRoutes.NoRouteToLeftLinkExactly | src/infra/relay_link.rs:435-481 | every run, ids overwritten or not: it never holds a route to a link that has left if and only if no target leaves between its lookup and the open, and every leaving link's teardown leads back to all legs towards it |
| ForwardingRoutes.UnusedIsThorough | src/infra/relay_routing.rs:242-258 | the second half holds in every run whose opens take no end still in use |
| ForwardingRoutes.StrandedRoute | src/infra/relay_link.rs:490-503 | the run in which the target's teardown precedes the open, and the route that stays |
| ForwardingRoutes.OverwrittenRoute | src/infra/relay_routing.rs:242-258 | a run without that race in which an end is overwritten and its link's teardown leaves the old peer's leg behind |
| Connections.RelayConnectionTable.Register | src/infra/relay_connection_table.rs:148-170 | a fresh id replaces the node's entry and hands the older one back |
| Connections.RelayConnectionTable.Touch | src/infra/relay_connection_table.rs:186-200 | only the owning link refreshes an entry |
| Connections.RelayConnectionTable.SetLabels | src/infra/relay_connection_table.rs:278-288 | only the owning link labels an entry |
| Connections.RelayConnectionTable.RemoveIfCurrent | src/infra/relay_connection_table.rs:207-220 | only the owning link removes an entry |
| Connections.RelayConnectionTable.RetireNotifying | src/infra/relay_connection_table.rs:229-246 | an operator's removal drops the node's entry whoever owns it, offers its queue the error code once, which a full queue drops, and signals that link and no other to retire |
| Connections.RelayConnectionTable.EvictIdle | src/infra/relay_connection_table.rs:251-272 | eviction removes and returns exactly the entries last heard from at least the limit ago |
| Connections.HeartbeatKeepsExactly | src/infra/relay_connection_table.rs:186-272 | a node whose own link was heard from at some time stays through any sweeps that follow if and only if each comes within its limit of that time; another link's heartbeat does not prolong it |
| Connections.PresenceHub.Watch | src/infra/relay_presence.rs:38-60 | a watch subscribes the connection and offers its queue one replay of the given state, which a full queue drops |
| Connections.PresenceHub.Publish | src/infra/relay_presence.rs:77-93 | the loop over the watchers gives every watcher of the node, and nobody else, the transition exactly once unless its queue is full |
| Connections.PostDelivers | src/infra/relay_presence.rs:77-93 | a queue gets the notice once, behind what it had, exactly if it is named and not full |
| Connections.PresenceHub.UnwatchConnection | src/infra/relay_presence.rs:65-74 | purging a connection ends exactly its own interests |
| Connections.UnsubscribedExactly | src/infra/relay_presence.rs:65-74 | after a purge a connection watches a node exactly if it did before and is another connection |
| PresenceRuns.PresenceAlternates | src/infra/relay_link.rs:245-261 | over every run in which no change of a node finds an earlier one still unannounced, what is announced about it strictly alternates, starts online and, where nothing is owed, ends with its table membership; replacement is silent |
| PresenceRuns.SupersededForever | src/infra/relay_connection_table.rs:148-220 | once a registered link does not own a node's entry, whichever id is newer, no later step on its behalf changes that entry |
| PresenceRuns.StaleLinkIsPowerless | src/infra/relay_connection_table.rs:186-288 | a step on behalf of a link leaves every entry it does not own as it was |
| PresenceWatch.Believes | src/infra/relay_presence.rs:38-93 | over every run, the last word of a watcher that lost nothing is what it was last told after its last replay, or else what the lookup behind that replay saw |
| PresenceWatch.WatcherConverges | src/infra/relay_presence.rs:38-93 | over every run in which no change of the target finds an earlier one unannounced: a watcher that lost nothing, has its replay and has nothing underway to it has the truth as its last word if and only if it was told about the target after that replay, or the target changed an even number of times between its lookup and its replay |
| PresenceRaces.ChangeMisleadsExactly | src/infra/relay_link.rs:137-138 | for every state, change of a node and lossless watcher with its replay: some continuation without another change leaves the watcher misinformed with nothing owed if and only if an announcement of the state the node is leaving has yet to reach it |
| PresenceRaces.OvertakenAnnouncement | src/infra/relay_link.rs:137-261 | for any two nodes a run in which a node is back before its lost link announced the loss: online, online, offline is announced and a lossless watcher ends up told offline, while the node is in the table |
| PresenceRaces.StaleReplay | src/infra/relay_link.rs:312-324 | for any two nodes a run in which the target leaves between lookup and subscription, after which a registered watcher that lost nothing was last told it is online |
| PresenceRaces.OvertakenReplay | src/infra/relay_presence.rs:45-60 | a run in which the offline announcement reaches the watcher's queue before the older replay, with the same end |
| PresenceRaces.DeadQueueTouchedExactly | src/infra/relay_presence.rs:62-93 | when a link leaves and its interests are purged, some continuation still puts a notice on its queue if and only if an announcement had already read it as a watcher |
| Capacity.NodeOvershootIsBounded | src/infra/relay_link.rs:229-245 | with at most n links at a time between their admission and their insert, any interleaving stays within n - 1 of the node limit, although a replacement skips the check and its old entry may vanish meanwhile |
| Capacity.StreamOvershootIsBounded | src/infra/relay_link.rs:435-481 | with at most n links at a time between their admission and their open, any interleaving stays within n - 1 of the stream limit |
| Capacity.AdmissionExactly | src/infra/relay_capacity.rs:108-122 | an open is admitted exactly below both limits, and a full table is named before the throughput is |
| Capacity.NodesHaveLinks | src/infra/relay_connection_table.rs:148-220 | over every run there are at most as many registered nodes as links in service |
| CapacityTight.NodeOvershootIsReached | src/infra/relay_link.rs:229-245 | for every positive node limit and every n a run, each link registering once, that reaches that bound |
| CapacityTight.StreamOvershootIsReached | src/infra/relay_link.rs:435-481 | the same for the stream limit: one link fills all but one place, then n links open at once |
| LinkClientWatch.RegisterPrecedesWatches | src/infra/relay_client.rs:742-772 | on every link of every run the frames the relay reads are none, or one Register followed by other frames |
| LinkClientWatch.NoInterestForgotten | src/infra/relay_client.rs:313-398 | in every interleaving of callers with link replacement, a recorded interest is declared on the installed link, or some running step is bound to declare it, or that link refused its declaration |
| LinkClientWatch.DeclaredExactly | src/infra/relay_client.rs:313-398 | where nothing is underway, the relay reads an interest on the installed link if and only if that link's queue took one of the offers; otherwise it refused one |
| LinkClientRuns.LinkComesIntoService | src/infra/relay_client.rs:742-801 | from every reachable state in which a link has registered, its task alone brings it into service in exactly one step per interest and four more, never stuck before; then every interest has been offered to it or a caller is about to |
| LinkClientRuns.InterestsExactly | src/infra/relay_client.rs:313-383 | over every run the interests are exactly the nodes some caller watched or opened a stream to, for good |
| LinkClientRuns.DeclarableExactly | src/infra/relay_client.rs:385-398 | some run has the relay read a watch of a node if and only if its id is at most 256 bytes long |
| LinkClientWatch.RefusedWatchStaysUndeclared | src/infra/relay_client.rs:346-361 | a run whose live link refused a declaration; watching again then changes nothing |
| LinkClientAdmin.NoRequestOutlivesReplacement | src/infra/relay_client.rs:422-457 | once a fresh link has drained the pending map, every caller still waiting sent its request on that link |
| LinkClientAdmin.ResolvedOnce | src/infra/relay_client.rs:632-672 | a resolved request keeps its outcome for the rest of any run; late or repeated responses are ignored |
| LinkClientRuns.WaitsForOutcome | src/infra/relay_client.rs:422-457 | over every run a waiting caller waits until its request has an outcome, and can return exactly then |
| LinkClientRuns.RequestsAreNumbered | src/infra/relay_client.rs:422-431 | a request enters the pending map under the number of requests made before it |
| LinkClientAdmin.DropFailsNothing | src/infra/relay_client.rs:842-844 | in every reachable state whose link can be dropped, the drop leaves every pending request pending and unresolved |
| LinkClientAdmin.LinkLostExactly | src/infra/relay_client.rs:422-457 | over every further run a pending request fails with a lost link if and only if the drain of a fresh link comes before its response and before its caller gives up |
| LinkClientAdmin.DropLeavesRequestWaiting | src/infra/relay_client.rs:842-844 | a run in which the link dropped and the request is neither answered nor failed |
| Der.ReadLength | src/infra/node_credentials.rs:206-226 | the loop with its 64-bit shift yields the length octets' value modulo 2^64 and the offset behind them |
| Der.ReadElement | src/infra/node_credentials.rs:228-242 | exactly the contents octets, in bounds, or nothing |
| Der.ExtractSpki | src/infra/node_credentials.rs:160-204 | the walker computes the specified slice or fails |
| DerLayout.WellFormedGivesSpki | src/infra/node_credentials.rs:160-259 | for every certificate laid out as in section 4.1 of RFC 5280 with definite lengths of section 8.1.3 of X.690, short or long form, and any trailing bytes, the result is exactly the SubjectPublicKeyInfo element |
| DerLayout.SpkiMeansLayout | src/infra/node_credentials.rs:160-259 | conversely every success comes from such a layout, up to truncated lengths, and is that layout's public key element |
| DerLayout.CompleteExactly | src/infra/node_credentials.rs:160-259 | for every certificate layout the walker accepts, the result is its public key element, and that element is as long as it declares if and only if its length octets fit 64 bits and avoid the reserved first octet |
| DerLayout.ResultIsCompleteExactly | src/infra/node_credentials.rs:206-226 | the same read off any result: it is one SEQUENCE element of the input, complete under that condition on its length octets |
| DerLayout.LongLengthIsTruncated | src/infra/node_credentials.rs:220-223 | a whole certificate whose public key declares 2^64 octets: the walker returns the element as if it were empty |
| TomlFiles.WhitespaceIs | src/infra/relay_toml_store.rs:123-132 | trimming removes exactly the characters with Unicode's White_Space property |
| TomlText.UnescapeEscape | src/infra/relay_toml_store.rs:107-121 | unescaping an escaped text gives it back, whatever it contains |
| TomlText.PushString | src/infra/relay_toml_store.rs:107-121 | the escaping loop writes the specified line |
| TomlText.ParseQuoted | src/infra/relay_toml_store.rs:237-260 | the unescaping loop computes the specified text or refuses |
| TomlSchemas.ParsePin | src/infra/relay_toml_store.rs:123-178 | the line loop equals the fold of settings over the lines |
| TomlSchemas.ParseServe | src/infra/relay_serve_toml_store.rs:198-265 | the same for the serve schema |
| TomlSchemas.SerializePin | src/infra/relay_toml_store.rs:93-105 | the text written is the rendering of the pin's fields |
| TomlSchemas.SerializeServe | src/infra/relay_serve_toml_store.rs:132-180 | the text written is the rendering of the set fields |
| TomlFiles.PinText | src/infra/relay_toml_store.rs:93-105 | the text written for a pin, name by name and to the letter |
| TomlFiles.ServeNumbers | src/infra/relay_serve_toml_store.rs:198-265 | for every name and number, a serve file with just that setting sets that field and no other, and is refused for zero |
| TomlFiles.ServeTexts | src/infra/relay_serve_toml_store.rs:198-265 | the same for quoted settings: the admin socket must be an absolute path and the listen address must parse |
| TomlFiles.AddressExactly | src/infra/relay_join.rs:381-412 | for every text, an address is valid if and only if it is a host, or a host and a port below 65536 after its last colon |
| TomlFiles.FingerprintExactly | src/infra/relay_toml_store.rs:190-197 | a fingerprint is valid if and only if it is 64 hexadecimal digits, and is kept in lower case |
| TomlRoundTrip.PinSurvivesSharing | src/infra/relay_toml_store.rs:93-259 | for every valid pin and every serve configuration, parsing both printed texts together, in either order, gives the pin back |
| TomlRoundTrip.ServeSurvivesSharing | src/infra/relay_serve_toml_store.rs:132-343 | for every valid serve configuration and every pin, parsing both printed texts together, in either order, gives the serve configuration back |
| TomlRoundTrip.PinRoundTripExactly | src/infra/relay_toml_store.rs:93-259 | a pin survives its own text if and only if it is valid |
| TomlRoundTrip.ServeRoundTripExactly | src/infra/relay_serve_toml_store.rs:132-343 | a serve configuration survives its own text if and only if it is valid |
| TomlRoundTrip.ParsedPinIsValid | src/infra/relay_toml_store.rs:123-211 | whatever the pin parser accepts is a valid pin, with a normalized fingerprint |
| Hooks.KeepLines | src/application/agent_hooks_config_service.rs:323-346 | the line loop with its open block keeps exactly the lines outside marked blocks, in order |
| HooksKept.KeptAreOthers | src/application/agent_hooks_config_service.rs:323-374 | for every text exactly the lines are kept, in order, that belong to no hook block mentioning WaitAgent's tag or its sender; a block runs from its header to the next table |
| Hooks.Reconcile | src/application/agent_hooks_config_service.rs:316-358 | the output is the kept lines without trailing blank ones, a gap, and one fresh block per event |
| HooksShell.ReconciledHolds | src/application/agent_hooks_config_service.rs:316-382 | for every text and every list of events, after the kept lines come exactly one block per event, in order, each a marked hook table whose entries read back as the event, as its command, and as a timeout of five seconds |
| HooksShell.CommandRunsSender | src/application/agent_hooks_config_service.rs:256-265 | for all texts, a shell splits a hook's command into the words sender and event, and the agent is named in its environment if and only if it is kimi |
| HooksIdempotent.KeptTwice | src/application/agent_hooks_config_service.rs:323-374 | dropping marked blocks leaves a text whose blocks are recognised again and all kept |
| HooksIdempotent.SecondRunKeeps | src/application/agent_hooks_config_service.rs:316-382 | a second run keeps exactly the first run's kept lines, each without one trailing carriage return |
| HooksIdempotent.IdempotentExactly | src/application/agent_hooks_config_service.rs:316-382 | for every text, reconciling again changes nothing if and only if no kept line ends with a carriage return |
| HooksIdempotent.IdempotentWithoutReturns | src/application/agent_hooks_config_service.rs:316-382 | in particular on every text without carriage returns |
| HooksIdempotent.ReturnsAreLostOneAtATime | src/application/agent_hooks_config_service.rs:326 | a text that two runs change twice |
| HooksShell.QuotedWordIsTheValue | src/application/agent_hooks_config_service.rs:299-301 | a shell reads the quoted word back as the value, for every text |
| Enrollment.TokenStore.Mint | src/infra/relay_enrollment.rs:94-115 | minting stores the record under the hash of its text, and redeeming it at any time before expiry is accepted |
| Enrollment.TokenStore.Redeem | src/infra/relay_enrollment.rs:121-142 | the answer and what the attempt removes |
| Enrollment.TokenStore.Persist | src/infra/relay_enrollment.rs:146-164 | the records written are exactly the unexpired ones |
| Enrollment.TokenStore.Load | src/infra/relay_enrollment.rs:169-192 | the loop inserts exactly the unexpired records |
| Enrollment.LoadAfterPersist | src/infra/relay_enrollment.rs:146-192 | loading what was persisted, in any order and at any later time, gives exactly the unexpired part of the store |
| Enrollment.Enroller.HandleFrame | src/infra/relay_enrollment.rs:199-245 | the session's answer, the store after it, and that only an accepted token whitelists the peer |
| EnrollmentRuns.OneTimeConserved | src/infra/relay_enrollment.rs:94-142 | over every run, sessions accepted through one-time tokens plus unused one-time tokens never exceed the one-time tokens minted |
| EnrollmentRuns.SucceedsExactly | src/infra/relay_enrollment.rs:121-142 | an attempt succeeds if and only if it comes before expiry and the token survived every earlier attempt since its mint |
| EnrollmentRuns.RefusalCodes | src/infra/relay_enrollment.rs:221-242 | over every run, a session for a minted token is refused with 0x0008 if and only if the token survived every attempt and is past expiry, with 0x0007 if and only if it was used up, and accepted or closed otherwise, by whether the whitelist could be written |
| EnrollmentRuns.UnknownIsInvalid | src/infra/relay_enrollment.rs:199-242 | a token never minted, or another first frame, is refused with 0x0007 |
| EnrollmentRuns.OneTimeMeansOnce | src/infra/relay_enrollment.rs:121-142 | after any attempt, accepted or rejected, a one-time token is unknown for the rest of the run |
| EnrollmentRuns.DeployUntilExpiry | src/infra/relay_enrollment.rs:121-142 | under a clock that never goes back a deploy token works exactly until it expires |
| EnrollmentRuns.WhitelistedWasLetIn | src/infra/relay_enrollment.rs:199-245 | whoever is on the whitelist was let in by a session with an accepted token and not removed since |
| Calendar.DaysBeforeYear | src/domain/agent_session_codex.rs:252-261 | the two year loops reach the closed form for every 32-bit year, before or after 1970, without 64-bit overflow |
| Calendar.DaysSinceUnixEpoch | src/domain/agent_session_codex.rs:247-283 | the result is the Gregorian closed form with floor division, and is refused exactly for months outside 1 to 12 or days outside 1 to 31 |
| Calendar.NextDayIsNextNumber | src/domain/agent_session_codex.rs:247-287 | the next calendar day counts one more |
| Calendar.NumbersFollowDates | src/domain/agent_session_codex.rs:247-287 | on valid dates the count is strictly monotone in calendar order and injective |
| Calendar.EveryNumberIsADate | src/domain/agent_session_codex.rs:247-287 | every number is the count of a valid date |
| Calendar.CycleOf400 | src/domain/agent_session_codex.rs:252-287 | every 400 years have the same leap years and 146097 days |
| Calendar.KnownDates | src/domain/agent_session_codex.rs:247-287 | the first of January 1970 is day zero; 1900 has no leap day and 2000 has one |
| Calendar.OverlongDayCountsOn | src/domain/agent_session_codex.rs:248-250 | an accepted day is counted like no other valid date if and only if it exists in its month; otherwise it counts into the next month |

## Left out

- TLS, certificate generation, SHA-256, SSH signing and keyrings: foreign code; the token hash is any injective function.
- Sockets, proxy dialing, threads and files: only the order of steps and the text or maps they carry are kept; a refused write or a full queue is a parameter of the step.
- The frame codec: frames are values with the payload limit their reader enforces.
- Test counters of the scheduler and the registry that publishes them.
- Overflow of the 64-bit deficit, of connection ids and of `now + ttl`: unbounded integers.
- The preference order among ready arms of the consumer's select: any ready arm may run, which includes the real choices.
- A sweep's evictions are removals one after another; refreshing an entry is one step; node ids are already lowercase.
- Throughput windows, heartbeat timing, retry delays: wall-clock behaviour; time is a number passed in.
- `resolve_label`, admin JSON, error texts, command line parsing, agent detectors: flat branching without a run-level property.
- JSON hook files, and hook predicates other than the one the TOML format is used with.
- Socket addresses in the serve configuration: a type with a printer and parser that agree and need no escaping; paths are valid UTF-8.
- Token state across restarts beyond one persist and load.
- HooksIdempotent.IdempotentExactly: events are single-line texts, as the fixed event lists are.
- Forwarding.EndToEnd: for ids opened at most once; `ForwardingReopen.ReopenedInOrder` covers the others, without the one source and the final Close that a reused id does not have.
- ForwardingMisorder.MisordersExactly: speaks of the order in which the link's queue takes frames, which is the order on the wire by `SchedulerOrder.LaneOrder`.
- SchedulerOvertaking.OvertakenExactly: for states with a backlog; without one the data to come decides.
- DerLayout.WellFormedGivesSpki: buffers are shorter than 2^64 bytes.
- Capacity.StreamOvershootIsBounded: throughput admission is decided by a number passed in and has no bound of its own.
- CapacityTight.StreamOvershootIsReached: for limits that the 2^31 even ids of one link can fill.
