# Verified model of libeam

libeam is an actor runtime for TypeScript in the style of Erlang/OTP. This project models its stateful cores in Dafny 4.11 and
proves what they promise: the demand protocol of its stages, its mailboxes and scheduler, the crash propagation over links,
supervision trees, actor migration, the replicated name registry, cluster membership by gossip, and the Z85 key encoding.

`dafny verify dfyconfig.toml` checks everything.

## How it is organised

Code that updates fields becomes a class whose methods are proved to compute a function on values; the promises are then
lemmas about those functions, about single steps and about every run.

| files | subject |
|---|---|
| `Dispatch`, `Broadcast`, `Partition`, `DispatcherClasses` | the three dispatchers of a producer: values, ledgers, and the objects with their loops |
| `Producer`, `ProducerOrder`, `Subsequences`, `StageClasses` | the producer, its buffer and its order over every run; the stage actors as objects |
| `Stages` | one producer, any number of consumers and supervising consumers, and the messages between them, as a transition system |
| `Mailbox`, `RingSizes`, `Migration` | the growing ring buffer and its sizes; draining and restoring it around a migration |
| `Scheduler`, `SchedulerClass` | the flags and immediates that decide when a mailbox is processed, over all interleavings |
| `Links`, `Reasons`, `LinkClasses` | links, and termination spreading along them while they are removed; which reasons are given |
| `Supervision`, `SupervisionClass`, `RestartIntensity`, `SlotLimits` | stopping subtrees, restart strategies, restart budgets, and what they limit in a tree |
| `VectorClock`, `Registry`, `RegistryCluster` | vector clocks, one replica, the cluster with causal pasts |
| `Gossip`, `GossipClass` | the cluster's membership tables; one node's protocol object |
| `Z85` | the encoder and decoder with their 32-bit arithmetic |
| `Basics` | options, minima and maxima, lists without repetitions |

User callbacks are parameters: a function for `handleDemand`, chosen outcomes for handlers, spawns and migration targets.
Time is a parameter. Delivery is a step that may happen at any time, and where the transport gives no more, repeatedly or never.

## Where the code does less than its documentation says

- Restart limits: `maxRestarts` is documented as the maximum within `periodMs` (`src/actor.ts:154-158`). The window is
  a tumbling one, so up to 2 * maxRestarts - 1 restarts fit into one period (`RestartIntensity.BoundIsExact`). The
  documented limit holds exactly as `RestartIntensity.DocumentedLimitIff` says: for at most one restart, or a period of no length.
- The same limits are counted by name or arguments so as to survive the change of id (`src/child_supervisor.ts:35-42`). A child with
  neither is counted by its id and so restarted without limit: `SlotLimits.SlotIsLimitedIff`.
- Broadcast cancels: `cancel` throws away the demand that `syncDemands` wants requested (`src/gen_stage.ts:310-318`), so the subscribers
  that stay can wait for events that nobody was asked for. When this happens is `Broadcast.CancelSwallowsIff`, and
  `ProducerDemand.CancelStrands` is such a run.
- Direct calls: the comment at `src/actor_system.ts:3088-3091` says that locking both flags prevents concurrent processing. A
  mailbox that is already scheduled is not covered; the exact condition is `Scheduler.FastPathIsSafeIff`.
- Bulk loading: `replaceWith` leaves the write index past the end when the messages fill the ring exactly
  (`src/mailbox.ts:143`); which messages survive is `BulkLoad.NextMessageSurvives`.
- Registry convergence needs generations that follow causality. The exact condition for one name is
  `Registry.ConvergesIffUnbeaten`, and `RegistryConvergence.NodesDiverge` is a run in which two nodes end apart.
- Z85 decoding accepts characters outside the alphabet and groups above 2^32; the exact condition for a round trip is
  `Z85.EncodeOfDecodeIff`.
- A peer that has left can come back from an old message once the failure detector has dropped it. When this can happen is
  `Gossip.ComesBackIff`, and `Gossip.LeftPeerComesBack` is such a run.

## Model

| member | source | states |
|---|---|---|
| Dispatch.BestIsFirstLargest | src/gen_stage.ts:259-268 | the scan picks the first subscriber, in insertion order, of the largest positive demand, and nothing exactly when nobody has demand |
| Dispatch.DemandDispatchSplits | src/gen_stage.ts:240-281 | the batches, joined, are the first min(events, total demand) events, the rest comes back untouched, and total demand falls by what was sent |
| Dispatch.DemandDispatchLedger | src/gen_stage.ts:240-281 | per subscriber, new demand plus events sent is old demand; only subscribers with demand are sent anything |
| Dispatch.GreedyServesLargestFirst | src/gen_stage.ts:256-278 | nobody is served twice, batches go by falling demand, all but the last exhaust their subscriber, and nobody skipped had more demand than somebody served |
| Dispatch.FastPathRefinesLoop | src/gen_stage.ts:246-254 | with one subscriber the fast path equals the loop if and only if there are events or no demand; otherwise it adds one empty batch |
| Broadcast.WaitingIsSmallestOutstanding | src/gen_stage.ts:355-369 | `waiting` is exactly the smallest demand still owed to any subscriber |
| Broadcast.SubscribeKeeps | src/gen_stage.ts:297-308 | a newcomer is owed nothing and the demand owed to every other subscriber is unchanged, although `waiting` is reset |
| Broadcast.CancelKeeps | src/gen_stage.ts:310-318 | cancelling changes nobody else's demand and keeps the dispatcher invariant |
| Broadcast.CancelSwallowsIff | src/gen_stage.ts:310-318 | when others stay, a cancel counts what the slowest of them is owed as requested, and tells nobody: demand is swallowed if and only if that exceeds what was requested before |
| Broadcast.AskKeeps | src/gen_stage.ts:320-325 | an ask raises exactly the asker's demand; it requests upstream, and adds to `requested`, what is now waiting beyond what was requested before |
| Broadcast.DispatchKeeps | src/gen_stage.ts:327-345 | every subscriber is sent the same prefix of the events, paid for out of its own demand; nobody without demand is sent anything |
| Broadcast.RunBalanced | src/gen_stage.ts:292-369 | over every run with fresh tags: delivered + owed = asked for each subscriber, someone is always at zero, 0 <= waiting <= requested, and each ever-subscriber got one contiguous segment of the common stream from its joining point |
| Partition.DispatchInOrder | src/gen_stage.ts:431-477 | what goes to a partition's owner, then what stays buffered, is the old buffer followed by the partition's share of the events; what stays means no demand is left |
| Partition.DispatchLedger | src/gen_stage.ts:431-477 | per subscriber, new demand plus events sent is old demand; the dispatcher invariant is kept |
| Dispatchers.DispatchOwes | src/gen_stage.ts:211-477 | all three dispatchers: a dispatch lowers what is owed to a subscription by exactly what it is sent |
| Dispatchers.AskOwes | src/gen_stage.ts:222-226 | all three dispatchers: an ask raises what is owed to that subscription alone, by its amount |
| Dispatchers.AskPasses | src/gen_stage.ts:222-429 | what an ask passes upstream: with the demand dispatcher the sum of all that is then owed, in whatever order it is added up; with the broadcast dispatcher what the slowest subscriber is then owed beyond what was requested; with the partition dispatcher the amount asked; and nothing for a tag the latter two do not know |
| Dispatchers.SubscribesIff | src/gen_stage.ts:398-413 | a subscription is accepted unless the partition dispatcher finds its partition missing, out of range or held by somebody |
| Dispatchers.HasSubscribersIff | src/gen_stage.ts:283-285 | whether there are subscribers is whether some tag is subscribed, for all three dispatchers |
| Dispatchers.SubscribeOwes | src/gen_stage.ts:398-413 | all three dispatchers: subscribing owes nothing to the newcomer and disturbs nobody |
| Dispatchers.CancelOwes | src/gen_stage.ts:415-420 | all three dispatchers: cancelling disturbs nobody else |
| Producer.HandleAskOwes | src/gen_stage.ts:575-599 | handling an ask: owed + delivered rises by the ask for the asker and stays for everyone else, through drain, callback and second dispatch |
| Producer.PullsIff | src/gen_stage.ts:575-598 | an ask of a subscriber calls the callback in forward mode always, with the demand and the partition dispatcher, and with the broadcast dispatcher if and only if the slowest subscriber is then owed more than was requested |
| Producer.AddToBufferKeeps | src/gen_stage.ts:642-668 | an overflow drops no more than it must: the oldest events when the last are kept, the newest otherwise |
| Producer.HandleAskUnsticks | src/gen_stage.ts:575-599 | an ask keeps "events are buffered only when no demand is left", whatever the callback returns |
| Producer.SwitchUnsticks | src/gen_stage.ts:611-622 | so does switching to forward mode |
| ProducerOrder.HandleAskSends | src/gen_stage.ts:575-599 | the messages of one ask carry exactly the events the ledger counts as sent, once each (demand) or to each subscriber (broadcast) |
| ProducerOrder.DispatchOrBufferInOrder | src/gen_stage.ts:623-640 | sent, then buffered, stays a subsequence of produced, and the counts add up with the drops |
| ProducerOrder.AddToBufferInOrder | src/gen_stage.ts:642-668 | an overflow drops one stretch, the oldest buffered or the newest, counted exactly; the buffer keeps its bound |
| ProducerOrder.RunConserves | src/gen_stage.ts:575-668 | over every run: sent ++ buffered is a subsequence of produced, produced = sent + buffered + dropped, the buffer keeps its bound, and without an overflow sent ++ buffered equals produced |
| ProducerDemand.DemandIsHandedOn | src/gen_stage.ts:575-622 | over every run, for every dispatcher: the demand passed upstream is what the callback was called with plus what is saved up; in forward mode nothing is saved up |
| ProducerDemand.CancelStrands | src/gen_stage.ts:310-318 | a broadcast subscriber asks for any n and another, which never asked, cancels: the one that stays is owed n, the callback has not been called, and a later ask calls it only for what that asks |
| PartitionOrder.HandleAskMoves | src/gen_stage.ts:575-597 | an ask moves each partition's events in order because the drain runs before the callback |
| PartitionOrder.RunFifo | src/gen_stage.ts:415-477 | over every forward-mode run: deliveries to the successive owners of a partition ++ its buffer = the produced events that hash to it, in order |
| Consumers.ReactionsInCredit | src/gen_stage.ts:789-831 | no message takes an endpoint out of 0 <= pending <= maxDemand; the clamp at zero plays no part; what is asked back is what was given up |
| Consumers.AsksTopUp | src/gen_stage.ts:789-810 | a consumer asks exactly when its demand has fallen to the minimum, and then tops it up to the maximum; a supervising one exactly when enough slots are free, and then for all of them |
| Consumers.SupervisorNeverStarves | src/gen_stage.ts:1009-1015 | a supervising subscription without workers still awaits events |
| Stages.CreditIsConserved | src/gen_stage.ts:575-831 | over every run of a producer, any number of consumers and their messages, for every dispatcher: pending = asks under way + owed + events under way, within 0..maxDemand, and the clamp never fires |
| Stages.WorkerSlotsAreConserved | src/gen_stage.ts:957-1030 | over every run: pending + workers + released slots = maxDemand, workers never exceed it, and with no worker left the subscription awaits events |
| Stages.NoStuckEvents | src/gen_stage.ts:222-281 | with the demand dispatcher: whenever all is at rest and a consumer with 0 <= minDemand < maxDemand is subscribed, the buffer is empty and the consumer's demand lies with the producer, above its minimum |
| DispatcherClasses.DemandDispatcher.Ask | src/gen_stage.ts:222-234 | the object adds the demand and returns the total over all subscribers, which is the ask the producer model makes |
| DispatcherClasses.DemandDispatcher.TotalDemand | src/gen_stage.ts:228-234 | the loop computes the total demand |
| DispatcherClasses.DemandDispatcher.FindBest | src/gen_stage.ts:259-268 | the scanning loop finds the subscriber that the greedy rule serves |
| DispatcherClasses.DemandDispatcher.Dispatch | src/gen_stage.ts:240-281 | fast path and loop over the object's map compute the dispatch the lemmas are about |
| DispatcherClasses.BroadcastDispatcher.SyncDemands | src/gen_stage.ts:355-369 | the two loops move the common demand into `waiting` and return the request |
| DispatcherClasses.BroadcastDispatcher.Subscribe | src/gen_stage.ts:297-308 | the object hands waiting demand back before it resets it |
| DispatcherClasses.BroadcastDispatcher.Cancel | src/gen_stage.ts:310-318 | the object drops the subscriber and settles the rest |
| DispatcherClasses.BroadcastDispatcher.Ask | src/gen_stage.ts:320-325 | the object computes the ask the ledger is about |
| DispatcherClasses.BroadcastDispatcher.Dispatch | src/gen_stage.ts:327-345 | the object computes the dispatch the ledger is about |
| DispatcherClasses.PartitionDispatcher.Subscribe | src/gen_stage.ts:398-413 | succeeds exactly for a free partition in range, and changes nothing otherwise |
| DispatcherClasses.PartitionDispatcher.Cancel | src/gen_stage.ts:415-420 | frees the partition and keeps its buffer |
| DispatcherClasses.PartitionDispatcher.Ask | src/gen_stage.ts:422-429 | adds to the owner's demand; an unknown tag changes nothing |
| DispatcherClasses.PartitionDispatcher.Dispatch | src/gen_stage.ts:431-477 | routing, draining and collecting compute the dispatch the lemmas are about; it throws exactly when some hash names no partition, leaving the earlier events routed |
| StageClasses.ProducerStage.HandleAsk | src/gen_stage.ts:575-599 | the actor's fields, state and outbox after an ask are those of the model; the callback is called, with the demand passed upstream, exactly when the model pulls |
| StageClasses.ProducerStage.SwitchToForward | src/gen_stage.ts:611-622 | the same for switching the demand mode |
| StageClasses.ProducerStage.DispatchOrBuffer | src/gen_stage.ts:623-640 | the same for dispatching or buffering |
| StageClasses.ProducerStage.AddToBuffer | src/gen_stage.ts:642-668 | the same for both overflow policies |
| StageClasses.ConsumerStage.HandleEvents | src/gen_stage.ts:789-810 | the actor reacts to a batch as the credit argument assumes; other subscriptions are untouched |
| StageClasses.ConsumerSupervisor.HandleEvents | src/gen_stage.ts:957-992 | one worker per event, a slot released for each that cannot start; other subscriptions are untouched |
| StageClasses.ConsumerSupervisor.HandleWorkerDown | src/gen_stage.ts:994-1015 | a known worker of a live subscription releases its slot; anything else asks for nothing |
| RingSizes.NextPow2IsLeast | src/mailbox.ts:179-187 | the size the rings use is a power of two, and the least that is at least n |
| RingSizes.SmearedIsNextPow2 | src/mailbox.ts:179-187 | the shifts and ors of a 32-bit word compute that size, for 1 <= n <= 2^30 |
| Mailbox.RingPops | src/mailbox.ts:90-97 | clearing the head slot and advancing it removes the first element of the queue |
| Mailbox.RingPushes | src/mailbox.ts:105-109 | moving the head back and writing there puts an element in front |
| Mailbox.StrategiesKeep | src/mailbox.ts:54-88 | over any sequence of offers to a bounded queue: dropping the oldest keeps the last messages that fit, the other strategies the first that fit; one is lost for each that does not fit, with the answer and the evicted message of each strategy |
| Mailbox.BoundedMailbox.Enqueue | src/mailbox.ts:54-88 | the ring does to its queue what each overflow strategy says; the ledger and the space bound are kept |
| Mailbox.BoundedMailbox.Dequeue | src/mailbox.ts:90-97 | takes the oldest message, or nothing from an empty queue |
| Mailbox.BoundedMailbox.Unshift | src/mailbox.ts:99-110 | puts messages in front in their order, growing first |
| Mailbox.BoundedMailbox.Grow | src/mailbox.ts:166-177 | doubles the ring, keeps the queue; all growing together copies at most capacity - 16 elements and capacity stays within max(16, 2 * peak) |
| Mailbox.BoundedMailbox.Drain | src/mailbox.ts:120-124 | returns the whole queue and empties it |
| Mailbox.BoundedMailbox.ToArray | src/mailbox.ts:126-132 | the modular walk reads off the queue in order |
| Mailbox.BoundedMailbox.ReplaceWith | src/mailbox.ts:134-149 | the queue becomes the given messages; the write index is right if and only if they leave a slot free |
| BulkLoad.NextMessageSurvives | src/mailbox.ts:134-149 | after a bulk load of which any number of messages has been worked off, what is left and the next message are read in order if and only if the load left a slot free or something is still queued |
| BulkLoad.SixteenLoseTheNext | src/mailbox.ts:134-149 | sixteen messages loaded into a fresh mailbox lose the seventeenth |
| VectorClock.VectorClock.MergeFrom | src/vector_clock.ts:47-52 | the loop computes the entrywise maximum |
| VectorClock.VectorClock.CompareTo | src/vector_clock.ts:64-85 | the loop with its two flags decides dominance |
| VectorClock.MergeIsJoin | src/vector_clock.ts:47-52 | merging is the least upper bound of two clocks |
| VectorClock.CompareComparesPasts | src/vector_clock.ts:54-85 | if clocks count pasts, "after" is strict containment of pasts |
| Registry.RegistrySync.RegisterName | src/registry_sync.ts:77-97 | increments, stores and publishes one registration of the given actor under the same clock |
| Registry.RegistrySync.UnregisterName | src/registry_sync.ts:117-138 | removes an entry and publishes the removal; an unknown name does nothing |
| Registry.RegistrySync.HandleUpdate | src/registry_sync.ts:173-226 | the handler accepts, merges or ignores exactly as the replica model says |
| Registry.RegistrySync.HandlePeerLeave | src/registry_sync.ts:228-244 | drops exactly the entries of the node that left |
| Registry.HandedIsArrived | src/registry_sync.ts:192-226 | what the handler makes of a sequence of registrations of a name is what their arrival makes of its entry |
| Registry.HigherRankStays | src/registry_sync.ts:209-224 | of two concurrent registrations the one of higher generation stays, and at equal generations the one on the higher node, in both orders of arrival |
| Registry.ConvergesIffUnbeaten | src/registry_sync.ts:192-226 | every order of arrival, with any repetition, ends in the same entry if and only if one registration beats all the others; equal ranks included |
| RegistryCluster.ClocksArePasts | src/vector_clock.ts:27-85 | over every cluster run, removals and departures included: clock(n)[m] = k iff n's past holds exactly ticks 1..k of m; "after" iff one past strictly contains the other; nobody is ahead of a node on its own ticks |
| RegistryCluster.ReplacementsComeAfter | src/registry_sync.ts:77-138 | over every run, replacing or removing an entry publishes a clock strictly after it, so every replica holding that entry accepts |
| RegistryConvergence.RegistryConverges | src/registry_sync.ts:192-226 | over every register-only run in which generations follow causality, an entry is the (generation, node) maximum of what the node made or received, so nodes that saw the same agree |
| RegistryConvergence.DisagreeingClocksDiverge | src/registry_sync.ts:209-224 | three registrations whose generations disagree with causality beat each other in a circle and two orders of arrival end differently |
| RegistryConvergence.NodesDiverge | src/registry_sync.ts:192-226 | a run of registrations and deliveries from the start of a cluster after which two nodes that got the same registrations hold different entries |
| Termination.EndedIsReachable | src/actor_system.ts:1667-1714 | the actors ended by a crash are exactly those reachable over links whose later nodes do not trap exits |
| Termination.ToldOncePerLink | src/actor_system.ts:1698-1703 | a trapping actor is sent exactly one message for each link to an actor that ended, from that actor, and none for other links |
| Reasons.CutThenCrash | src/actor_system.ts:1692-1714 | the removed link pays for the crash it causes: budget used plus links left does not grow, so a budget that covers every link outlasts every way back on a cycle |
| Reasons.ChargeThenNotify | src/supervisor.ts:74-143 | a crash that is charged, told to the neighbours and, after a kill, forgotten gives the neighbours "killed" if the budget was spent and "error" if it lasts |
| LinkClasses.LinkSystem.LinkActors | src/actor_system.ts:1392-1450 | adds the link and both index entries, or fails for a missing actor |
| LinkClasses.LinkSystem.Unlink | src/actor_system.ts:1552-1605 | removes exactly that link and keeps the index in step, with no empty entries |
| LinkClasses.LinkSystem.NotifyLinkedActors | src/actor_system.ts:1667-1730 | the loop over a copied set, edited meanwhile by the crashes it causes, ends with no link of the actor left; terminates on the links |
| LinkClasses.LinkSystem.HandleCrash | src/supervisor.ts:74-143 | a crash, also one that comes back to an actor still being crashed, ends with no link of the actor left and the actor stopping; a kill forgets its record; whoever has spent its budget tells only of kills, whoever has a budget left for each of its links only of failures, and is charged for its crash |
| LinkClasses.LinkSystem.Charge | src/supervisor.ts:74-107 | the restart record is begun anew after its period; the crash counts as a kill exactly when the budget is spent, and as a failure otherwise, at the cost of one restart |
| LinkClasses.LinkSystem.Crash | src/supervisor.ts:87-143 | a whole cascade: who ends, which links are left, who is told, for which reason, and that no ended actor is left in `links` or `linkedWith` |
| LinkClasses.LinkSystem.Stop | src/actor_system.ts:2694-2743 | a normal stop ends nobody else and tells each trapping neighbour once per link |
| Scheduler.NoLostWakeup | src/actor_system.ts:4559-4710 | over all interleavings of casts, calls, pauses, drains, injections and stops: a live, unpaused actor with mail has an immediate queued, a handler under way or a direct call under way |
| Scheduler.HandledInOrder | src/actor_system.ts:4574-4710 | without drains and injections, handlers begun ++ mailbox = messages accepted, over all interleavings |
| Scheduler.NothingBeginsWhilePaused | src/actor_system.ts:4712-4770 | a live actor that is paused or drained begins no handler until it is resumed, over all interleavings |
| Scheduler.OneHandler | src/actor_system.ts:4559-4710 | if no call arrives at an idle actor (live, unpaused, without mail and without a handler under way) whose mailbox is scheduled, at most one handler is under way, and one token exists exactly while the actor is scheduled |
| Scheduler.CallWaitsItsTurn | src/actor_system.ts:2902-2936 | after any such run, a call begins its handler at once if and only if the actor is idle; otherwise it is queued last if there is room, and no handler begins |
| Scheduler.FastPathIsSafeIff | src/actor_system.ts:2902-2909 | a call that begins at once can never lead to two handlers at once if and only if the mailbox is not scheduled when it starts |
| Scheduler.FirstCallAfterSpawnOverlaps | src/actor_system.ts:937-937 | the immediate left by a spawn, a call, a cast, and the immediate firing give two handlers at once |
| SchedulerClass.MailboxScheduler.constructor | src/actor_system.ts:937-937 | a spawned actor starts with one immediate queued |
| SchedulerClass.MailboxScheduler.ScheduleProcessMailbox | src/actor_system.ts:4559-4565 | queues an immediate unless scheduled, paused or gone |
| SchedulerClass.MailboxScheduler.DispatchCast | src/actor_system.ts:2943-2961 | one cast step |
| SchedulerClass.MailboxScheduler.DispatchCall | src/actor_system.ts:2889-2936 | one call step: direct when nothing is being processed and there is no mail and no pause, queued otherwise |
| SchedulerClass.MailboxScheduler.FinishCall | src/actor_system.ts:3168-3178 | the end of a direct call hands the mailbox on or gives the flag back |
| SchedulerClass.MailboxScheduler.ResumeMailbox | src/actor_system.ts:4721-4731 | one resume step, reporting whether it was paused |
| SchedulerClass.MailboxScheduler.ProcessMailbox | src/actor_system.ts:4574-4710 | with handlers that return at once, the batch loop equals one firing and a run of handler ends: it works off the first 64 messages, or all |
| Migration.KeptOrRejected | src/actor_system.ts:4820-4832 | every waiting message is kept or rejected, once; calls that can be rejected are, all others are kept |
| Migration.KeptInOrder | src/actor_system.ts:4820-4834 | what is kept of a queue is what is kept of its first part, then of its second, and so for what is rejected |
| Migration.KeptOne | src/actor_system.ts:4820-4832 | a single message is rejected if and only if it is a call that can be rejected |
| Migration.KeptIsSubsequence | src/actor_system.ts:4820-4834 | kept and rejected messages stand in the order in which they waited |
| Migration.MigrationSource.RejectPendingCalls | src/actor_system.ts:4810-4837 | the mailbox keeps what is not rejected, in order; the ring is sound exactly when that leaves a slot free |
| Migration.MigrationSource.Drain | src/actor_system.ts:4737-4770 | pauses and takes everything queued |
| Migration.MigrationSource.Inject | src/actor_system.ts:4772-4787 | puts messages back in front, in order |
| Migration.MigrationSource.Migrate | src/actor_system.ts:591-750 | on each of the five failing exits: mailbox = kept ++ everything that arrived since, in order, unpaused, each waiting call rejected once; and exactly when the ring is sound |
| Supervision.PostOrderHasSubtree | src/actor_system.ts:2699-2709 | stopping visits exactly the actor and everything below it |
| Supervision.PostOrderIsChildrenFirst | src/actor_system.ts:2699-2709 | no actor is visited twice, and none after its parent |
| Supervision.CutStep | src/actor_system.ts:2712-2723 | stopping one more child removes exactly its subtree and leaves the order of the subtree as it was in the full tree |
| SupervisionClass.ActorTree.Stop | src/actor_system.ts:2694-2769 | recursive stopping over the changing tree removes exactly the subtree, ends its actors in post-order, and changes nothing else; a missing actor is left alone |
| SupervisionClass.ActorTree.SpawnChild | src/actor_system.ts:1013-1023 | a new child comes last under its parent |
| SupervisionClass.ActorTree.StopSingle | src/actor_system.ts:2814-2867 | removes the actor alone; its children stay |
| SupervisionClass.ActorTree.OneForOne | src/child_supervisor.ts:153-180 | the others stay in order, the fresh child of the same kind comes last |
| SupervisionClass.ActorTree.OneForAll | src/child_supervisor.ts:187-229 | all children are replaced by fresh ones of the same kinds in the same order; everything that was below them is gone; nothing else changes |
| SupervisionClass.ActorTree.RestForOne | src/child_supervisor.ts:234-285 | the children before the crashed one keep their ids, the rest are replaced in order |
| SupervisionClass.ActorTree.HandleChildCrash | src/child_supervisor.ts:35-118 | the crash is charged to the record of parent and child key; with the budget spent the child is stopped with its subtree, otherwise its parent's strategy applies; who ends, in order; without a parent nothing happens |
| SlotLimits.HeirKeepsKeyIff | src/child_supervisor.ts:35-42 | under every strategy, a child that is replaced goes on being counted under its key if and only if it has a name or arguments |
| SlotLimits.CountedTogetherIff | src/child_supervisor.ts:35-42 | children of different parents are never counted together; of one parent, those of equal names are, and nameless ones of equal arguments |
| SlotLimits.KeyIsAccounted | src/child_supervisor.ts:87-148 | over every run of crashes, spawns and stops, the record of a key and the restarts granted under it are what the crash times of that key alone make of an empty record |
| SlotLimits.SlotIsLimited | src/child_supervisor.ts:35-148 | over every such run, whoever holds a slot among a parent's children: no closed interval of length periodMs holds more restarts of the slot than the bound, if the child has a name or arguments |
| SlotLimits.SlotIsLimitedIff | src/child_supervisor.ts:35-148 | that bound, or any higher one, limits every slot of a kind of child if and only if it has a name or arguments, or there is no budget or no period; otherwise there is no limit |
| RestartIntensity.ChildSupervisor.CanRestart | src/child_supervisor.ts:125-148 | decides and updates the record of one key, with in-place resets kept on denial; other keys untouched |
| RestartIntensity.RestartsAreBounded | src/child_supervisor.ts:125-148 | for all nondecreasing crash times, no closed interval of length periodMs holds more restarts than 2 * maxRestarts - 1, or maxRestarts for a period of 0, or none for a budget or period below that |
| RestartIntensity.BoundIsMet | src/child_supervisor.ts:125-148 | for every budget and period, zero and negative ones included, there are crash times that meet the bound |
| RestartIntensity.BoundIsExact | src/child_supervisor.ts:125-148 | a number limits the restarts in every interval of length periodMs, for all crash times, if and only if it is not below the bound |
| RestartIntensity.DocumentedLimitIff | src/actor.ts:154-158 | the documented limit, maxRestarts within periodMs, holds for all crash times if and only if maxRestarts is 0 or 1, or is not negative and the period has no length |
| Gossip.StartIsValid | src/gossip_protocol.ts:36-57 | a cluster that starts meets the invariant of all runs: every node knows exactly itself |
| Gossip.NobodyInvents | src/gossip_protocol.ts:246-312 | over every run with lost, repeated and reordered messages and restarts: an entry for a node is a state that node published, never newer than its own |
| Gossip.KnowledgeGrows | src/gossip_protocol.ts:285-309 | an entry grows in (generation, heartbeat) for as long as it is kept |
| Gossip.LeavingIsForGood | src/gossip_protocol.ts:125-134 | a peer seen leaving is not seen otherwise in that generation for as long as its entry is kept |
| Gossip.NothingOlderIsKept | src/gossip_protocol.ts:268-309 | after a message, what a table has of a peer that was known or is not leaving is not older than any entry of the message |
| Gossip.ToldIsWhatChanged | src/gossip_protocol.ts:268-309 | the event of an entry is what it changed in the table: a peer came, left within its generation, or otherwise moved on |
| Gossip.TakenInIff | src/gossip_protocol.ts:268-281 | a message makes an unknown peer known if and only if it has an entry of it that is not leaving |
| Gossip.ComesBackIff | src/gossip_protocol.ts:268-325 | a node that knows a peer to have left can come to see it as a member of the same generation if and only if the peer is not itself and an entry from before the leaving is still in a table or in a message that can arrive |
| Gossip.OldMessageReturns | src/gossip_protocol.ts:268-325 | whatever the timeout, dropping the peer for its silence and receiving such a message brings it back |
| Gossip.LeftPeerComesBack | src/gossip_protocol.ts:268-325 | a run from a starting cluster: a peer joins, leaves, is known to have left, is dropped, and is taken back from its first message |
| GossipClass.GossipProtocol.constructor | src/gossip_protocol.ts:36-57 | a node starts alive at heartbeat 0 and knows itself |
| GossipClass.GossipProtocol.GossipLoop | src/gossip_protocol.ts:199-202 | publishes the next heartbeat and keeps the own entry current |
| GossipClass.GossipProtocol.Leave | src/gossip_protocol.ts:125-134 | publishes one leaving state; a second call does nothing |
| GossipClass.GossipProtocol.HandleGossipMessage | src/gossip_protocol.ts:246-312 | merges entry by entry, with the events emitted; a message of another version changes nothing |
| GossipClass.GossipProtocol.FailureDetectionLoop | src/gossip_protocol.ts:314-325 | drops exactly the expired peers, one event each, never the node itself |
| Z85.AssembledIsWord | src/auth.ts:43-48 | signed shifts, or and `>>> 0` assemble the big-endian number of four bytes |
| Z85.WordOfBytes | src/auth.ts:69-72 | the four masked shifts give the bytes of the value modulo 2^32, whatever its sign as a 32-bit number |
| Z85.IndexIsValue | src/auth.ts:34-35 | the place of each character is its value in the table of ZeroMQ RFC 32 |
| Z85.DecodeOfEncode | src/auth.ts:37-75 | decode(encode(d)) = d for every byte string whose length is a multiple of 4; an error for every other |
| Z85.EncodeOfDecodeIff | src/auth.ts:37-75 | encode(decode(s)) = s exactly when every character is in the alphabet and every group of five is below 2^32; an error exactly for lengths that are no multiple of 5 |
| Z85.HelloWorld | src/auth.ts:37-75 | the example of ZeroMQ RFC 32 is encoded to HelloWorld and decoded back |
| Z85.Z85Encode | src/auth.ts:37-57 | the loops compute the encoding |
| Z85.Z85Decode | src/auth.ts:59-75 | the loops compute the decoding, foreign characters counting as -1 |

## Left out

- Transports, sockets, processes, UDP, telemetry, logging, health checks and typed references: no state of their own worth proving.
- HMAC, key derivation, curve keys, the nonce cache and key rotation of `src/auth.ts`: foreign cryptography.
- ProducerConsumer stages, beyond the dispatchers and buffer they share with producers.
- `consumerRef` in dispatched batches: a batch is addressed by its subscription tag alone.
- Partition options given as strings and the default hash functions: a partition is a number or missing, and the hash is any function to a number or null.
- StageClasses.ProducerStage.HandleAsk: holds its dispatcher by value, since dispatchers are reached through an interface; DispatcherClasses proves that the objects compute the same. What a stage is left with when a partition hash throws is stated for the dispatcher only.
- StageClasses.ProducerStage.SwitchToForward: the same two limits.
- StageClasses.ProducerStage.DispatchOrBuffer: the same two limits.
- Stages.CreditIsConserved: maximum demand is a natural number and delivery is reliable; callbacks do not crash, and a hash that would throw is not dispatched.
- Stages.WorkerSlotsAreConserved: a worker that ends is reported once; workers whose crash is answered by a restart are not reported by the system and are not covered.
- Mailbox.BoundedMailbox.ReplaceWith: an array that a later write would extend is modelled only in BulkLoad; the class stops at saying when the write index is wrong.
- Direct local casts (`_syncLocalCast`) and handlers that stash are not steps of the scheduler model.
- Scheduler.HandledInOrder: a mailbox that is full refuses the newest message; the drop-oldest strategy is left to Mailbox, and messages that a handler stashes are not covered.
- SchedulerClass.MailboxScheduler.ProcessMailbox: handlers in the loop return at once and do not touch their own mailbox; handlers that suspend are covered by the interleavings of Scheduler.
- Migration.MigrationSource.Migrate: an unbounded mailbox, one migration at a time and no unstashing meanwhile; where a migration succeeds only the removal of the actor is modelled.
- Links to other nodes, watches, and child actors in the crash cascade; children are the subject of Supervision.
- LinkClasses.LinkSystem.Crash: root actors under the "Stop" strategy, with exit handlers that do not edit links; it ends where the actors are marked as stopping, and their removal is a separate step.
- LinkClasses.LinkSystem.HandleCrash: the "Restart" strategy of root actors is not modelled; it unlinks the actor without telling anybody.
- LinkClasses.LinkSystem.Charge: root restart budgets are keyed by an id that changes on restart, so no bound over restarts is stated.
- Actor ids are increasing numbers instead of random ones, which makes them fresh and orders parents before children.
- SupervisionClass.ActorTree.HandleChildCrash: local children, no spawn while it waits. A name or an argument list whose text is that of an id is taken not to occur.
- SlotLimits.SlotIsLimited: the run begins without restart records, crashes are handled in the order of their times, and a parent's options stay the same.
- RegistryCluster.ClocksArePasts: nodes do not restart, since a restarted node counts its clock from zero again; names are registered by the node their actor lives on.
- RegistryConvergence.RegistryConverges: register-only runs, since removals leave no tombstones.
- Gossip.NobodyInvents: a restarted node has a larger generation; messages are authentic. Which peers are gossiped to is left open, and a node that has stopped takes no further part until it restarts.
- Order of the events emitted by the failure detector, and the metadata of peers.
- Real-time liveness: nothing says when a queued immediate fires or a message arrives.
