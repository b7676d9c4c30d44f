# Weave edge runtime: a verified model

The edge runtime turns device input into service intents, runs the intents concurrently per
target, keeps a remote server's view of state in step over a connection that drops, and draws
feedback on a 9x9 LED display. This project models those parts in Dafny and proves what they
promise over every input, every run and every reachable state.

Run `dafny verify dfyconfig.toml` to check all of it.

## What is modelled

- **Values** (`Common`, `Text`, `Contracts`, `Bindings`): inputs and the bindings that name them, intents
  and their wire form, mappings, cycles, routes, JSON values.
- **Routing** (`Selection`, `Routing`, `RoutingEngine`): the engine as a class whose methods
  update its three maps in place, each tied to a function on values. `BucketIndex` shows that the
  per-device index refines a flat list and a plain map from id to mapping; `RoutedIntents` and
  `Outcomes` say what an input yields, down to the last field, in terms of the configuration;
  `EngineRuns`, `CycleRuns` and `TargetSwitching` state what holds over whole runs of
  configuration updates and inputs.
- **Dispatch** (`Coalescing`, `Dispatcher`, `DispatcherHistory`, `DispatcherProgress`,
  `DispatcherTasks`): one dispatcher, one bounded queue and one worker per (service type, target),
  forwarding when no adapter exists. The concurrent system is a step relation with numbered intents; the loops themselves are classes tied to it.
- **Resync** (`LastWrite`, `Resync`, `IosReplay`, `SourceDedup`, `Broadcast`, `EndToEnd`,
  `ConfigReplica`, `ReplicaRuns`): state pumps with last-write-wins caches, the outbox, sessions
  that lose frames, replay on reconnect, the Roon adapter's source-side dedup and the bounded broadcast behind it, the
  configuration replica and its disk cache.
- **Event stream** (`EventStream`, `StandardEvents`): the Hue bridge's incremental framing, and
  section 9.2.5 of the WHATWG HTML Living Standard (LF-only) as an independent reference.
- **LED** (`Bits`, `Bytes`, `Led`, `LedPayload`, `Scroll`, `ScrollRuns`, `Feedback`,
  `FeedbackPump`): the glyph codec, the 81-bit packing, the scroll canvas and its frames on both
  platforms, the feedback filters, and the pumps whose scrolls share an LED.

Hash-map iteration orders, adapter answers, session losses, disk failures, server restarts and
clocks are arbitrary parameters or steps: every theorem holds for all of them.

## Where code and documentation differ

The model follows the code.

- `crates/weave-contracts/src/lib.rs:524-525` says that mappings outside a device's cycle fire
  normally. `crates/edge-core/src/routing.rs:656-664` keeps them dormant while the cycle has an
  active mapping (`CycleRuns.ActiveMappingIsolated`). A cycle without an active mapping filters
  nothing (`crates/edge-core/src/routing.rs:609-611`).
- `crates/nuimo-protocol/src/font.rs:24-25` gives the font's characters as letters, digits and
  space; the table also has the question mark. The model works for every table.
- The configuration cache stores cycles, but priming restores none of them: on a cycled device a
  restart without the server makes every mapping fire again (`ConfigReplica.RestartForgetsCycle`
  says exactly when that shows).
- `crates/weave-ios-core/src/feedback_pump.rs:332-334` says that a plan with the signature of the
  last write would not change the visible frame. The signature is kept per key, and keys share the
  LED: `FeedbackPump.SkippedStaysVisibleExactly` says exactly when the skipped frame is visible and
  stays so.
- `crates/edge-agent/src/main.rs:1560-1565` says that the replay on reconnect lets the server recover
  its full snapshot. It recovers what the pump received: an update the pump missed because it lagged
  behind the broadcast (`crates/edge-agent/src/main.rs:1606-1608`) is neither replayed nor sent again
  by the dedup. `EndToEnd.ServerShowsLatestExactly` says for which keys the server can be
  relied on, and `EndToEnd.StaleServer` is a run in which it stays wrong.

## Model

| member | source | states |
|---|---|---|
| Contracts.ReassembleInvertsSplit | crates/edge-core/src/intent.rs:92-129 | an intent split for the wire is reassembled to itself, for every intent |
| RoutedIntents.ReassembleExactly | crates/edge-core/src/intent.rs:115-129 | a peer reads an intent off the wire if and only if it goes by the intent's name and gives its number, when it has one; everything else is an error |
| RoutedIntents.DeltaWireForms | crates/edge-core/src/intent.rs:98-109 | the four continuous intents on the wire: their names, and `delta` or `seconds` |
| RoutedIntents.AbsoluteWireForms | crates/edge-core/src/intent.rs:98-109 | the three intents that set a value: their names, and `value` or `seconds` |
| RoutedIntents.PlaybackWireForms | crates/edge-core/src/intent.rs:98-109 | the names of the playback intents, which have no fields |
| RoutedIntents.SwitchWireForms | crates/edge-core/src/intent.rs:98-109 | the names of the mute and power intents, which have no fields |
| Bindings.MatchesExactly | crates/edge-core/src/intent.rs:134-172 | exactly the inputs a binding names: plain ones by name, swipes, touches, long touches and flights by direction or area, buttons by any spelling of their number |
| Bindings.ParseU8Exactly | crates/edge-core/src/intent.rs:161-164 | a number is read if and only if it is its decimal digits, after any zeros and at most one plus sign |
| Selection.Advance | crates/edge-core/src/routing.rs:74-92 | the two loops end, move the cursor by the whole steps trunc((acc + delta) / 0.25) around the ring, keep less than a step, and report movement exactly when that number is non-zero |
| Selection.RotationConserved | crates/edge-core/src/routing.rs:74-92 | over any run of rotations, net steps times 0.25 plus the accumulator equals what was turned; the cursor shows the net steps modulo the number of candidates |
| Selection.WithinOneStep | crates/edge-core/src/routing.rs:74-92 | from a fresh selection the net displacement stays within one step of the ideal one |
| Selection.TurningBackReturns | crates/edge-core/src/routing.rs:74-92 | rotations that sum to zero restore the selection exactly, however they are cut |
| Selection.OneDirectionIgnoresCutting | crates/edge-core/src/routing.rs:74-92 | turning one way, forwards or backwards, any cutting into events ends where a single event would |
| Selection.NetStepsAtMost | crates/edge-core/src/routing.rs:74-92 | the net steps of any run, from the amounts turned alone: at most m if and only if the last amount outside the step after m lies below it, or there is none and m is not negative |
| Selection.CuttingExactly | crates/edge-core/src/routing.rs:74-92 | whichever ways the wheel turns, the run ends where a single event would if and only if the turn ends on a step, or the last earlier amount outside the step it ends in lies on the side of the start, or there is none |
| Selection.BothWaysFeelCutting | crates/edge-core/src/routing.rs:74-92 | the input where it does not: a step forwards and half a step back, one by one, end elsewhere than their sum |
| RoutingEngine.RoutingEngine.ReplaceAll | crates/edge-core/src/routing.rs:165-174 | the buckets become the list grouped by device, in order |
| RoutingEngine.RoutingEngine.UpsertMapping | crates/edge-core/src/routing.rs:178-189 | every entry with the id is removed from every bucket and the mapping appended to its own device's |
| RoutingEngine.RoutingEngine.RemoveMapping | crates/edge-core/src/routing.rs:193-200 | every entry with the id is removed and empty buckets are pruned |
| RoutingEngine.RoutingEngine.TakeSnapshot | crates/edge-core/src/routing.rs:204-212 | the buckets concatenated in some enumeration order of the map |
| RoutingEngine.RoutingEngine.ReplaceCycles | crates/edge-core/src/routing.rs:215-221 | cycles become the list keyed by device, later entries winning |
| RoutingEngine.RoutingEngine.CyclesSnapshot | crates/edge-core/src/routing.rs:257-259 | every cycle once, in some enumeration order |
| RoutingEngine.RoutingEngine.SetActive | crates/edge-core/src/routing.rs:238-254 | active changes exactly when the cycle exists and lists the id; the answer says whether it did |
| RoutingEngine.RoutingEngine.TryCycleSwitch | crates/edge-core/src/routing.rs:273-292 | the gesture advances active to the next member; otherwise nothing changes |
| RoutingEngine.RoutingEngine.Route | crates/edge-core/src/routing.rs:426-440 | emits the first building route of every active mapping that the cycle's filter lets through |
| RoutingEngine.RoutingEngine.RouteList | crates/edge-core/src/routing.rs:646-687 | the routing loop with its inner search equals the specification on every list and filter |
| RoutingEngine.RoutingEngine.RouteWithMode | crates/edge-core/src/routing.rs:449-590 | outcome and next state on cycled, selecting and plain devices; keeps every open selection's cursor in range |
| RoutingEngine.RoutingEngine.FeedbackRulesForDeviceTarget | crates/edge-core/src/routing.rs:386-396 | the rules of the first active mapping of the device covering the pair |
| RoutingEngine.RoutingEngine.FeedbackTargetsFor | crates/edge-core/src/routing.rs:403-416 | lists exactly the devices whose lookup finds rules, once each, with those rules |
| RoutedIntents.BuildIntentExactly | crates/edge-core/src/routing.rs:689-727 | a matching route makes an intent of an input if and only if the intent goes by the route's name on the wire and carries the amount turned or slid times the route's numeric damping, for the four continuous ones, the route's own number for volume_set, nothing otherwise |
| RoutedIntents.BuildsNothingExactly | crates/edge-core/src/routing.rs:689-727 | it makes none if and only if the name is unknown, or a continuous intent meets an input without an amount, or volume_set has no number |
| RoutedIntents.FirstIntentExactly | crates/edge-core/src/routing.rs:670-684 | a mapping's intent is that of the first matching route that makes one |
| RoutedIntents.RoutedInOrder | crates/edge-core/src/routing.rs:646-687 | exactly the active mappings that the filter lets through and that have an intent speak, in the list's order, for their target, with the current candidate's service type and routes where it has its own |
| Outcomes.CycledExactly | crates/edge-core/src/routing.rs:462-499 | on a cycled device an input switches to the member after the first occurrence of the active one, the first after the last, if and only if it is the gesture and active is a member; else the mappings speak through the filter; both platforms' gesture tests agree |
| Outcomes.SetExactly | crates/edge-core/src/routing.rs:238-254 | a member named becomes active, and the answer says whether it was one |
| Outcomes.SelectingExactly | crates/edge-core/src/routing.rs:501-537 | while selecting, a turn of a step or more shows the candidate it came to, a smaller one waits, a press commits the candidate under the cursor, any other input cancels; no other device is touched |
| Outcomes.PlainExactly | crates/edge-core/src/routing.rs:539-589 | on any other device the first active mapping with candidates that is bound to the input opens a selection on the candidate after its current one; if there is none, every mapping speaks and nothing changes |
| Outcomes.RouteExactly | crates/edge-core/src/routing.rs:426-440 | plain routing emits what the device's mappings say, in order, the active one's alone on a cycled device with one |
| Outcomes.RulesExactly | crates/edge-core/src/routing.rs:624-644 | the rules found for a pair are those of the first active mapping that names it, itself or by a candidate, and none are found if and only if no mapping does |
| BucketIndex.IndexRefinesMap | crates/edge-core/src/routing.rs:165-200 | after any sequence of full configurations, upserts, deletes and target switches, a mapping is in a device's bucket if and only if the device is its own and a plain map by id holds it; no bucket repeats an id |
| BucketIndex.RunRefines | crates/edge-core/src/ws_client.rs:225-279 | every such run refines the same run on one flat list, ids staying distinct |
| BucketIndex.ReplaceAllOfSnapshot | crates/edge-core/src/routing.rs:165-212 | replacing with a snapshot taken in any enumeration order restores every non-empty bucket with its order |
| BucketIndex.FindInSnapshot | crates/edge-core/src/ws_client.rs:263-278 | a lookup by id in the snapshot does not depend on its order |
| EngineRuns.SelectionsWellBracketed | crates/edge-core/src/routing.rs:449-590 | over every interleaving of inputs, configuration and cycle updates: no Enter inside an open selection; Update, Commit and Cancel carry the Enter's id; a commit's target is a captured candidate whose glyph the LED shows; no intent while selecting on an uncycled device |
| EngineRuns.ActiveStaysMember | crates/edge-core/src/routing.rs:215-292 | given well-formed cycles from the server, every engine step keeps active among the members |
| EngineRuns.CyclesOfExactly | crates/edge-core/src/routing.rs:215-221 | a device's cycle in a list is its last entry, in every field |
| EngineRuns.CycleIsLastSent | crates/edge-core/src/routing.rs:215-292 | over every run, each device's cycle has the members and gesture last sent for it, or is gone if that was a removal; active is the member last named or reached by the gesture since, else the one sent |
| EngineRuns.BucketsAreConfigured | crates/edge-core/src/routing.rs:165-200 | over every run the buckets are those of the configuration updates alone |
| EngineRuns.EmptyBucketsUnobservable | crates/edge-core/src/routing.rs:165-212 | engines that differ at most in empty buckets give equal outcomes and lookups after any run of the same operations, and still differ only so |
| CycleRuns.Orbit | crates/edge-core/src/routing.rs:596-604 | n gestures from position p make ids[(p + n) mod length] active and change nothing else, when every id is followed by the same id wherever it occurs |
| CycleRuns.OrbitExactly | crates/edge-core/src/routing.rs:596-604 | the gesture walks the listed order from every member, for any number of gestures, if and only if that condition holds; distinct ids meet it |
| CycleRuns.FullTurn | crates/edge-core/src/routing.rs:596-604 | with distinct ids, as many gestures as members return to the start and make every member active exactly once on the way |
| CycleRuns.RepeatedMemberStarves | crates/edge-core/src/routing.rs:596-604 | where an id has two successors the walk fails: in a, b, a, c the member c is never reached by any number of gestures |
| CycleRuns.ActiveMappingIsolated | crates/edge-core/src/routing.rs:609-664 | with an active mapping, everything emitted is what that mapping emits alone, at most one intent |
| CycleRuns.PathsAgreeExactly | crates/weave-ios-core/src/edge_client.rs:231-255 | on a device that is not selecting, the iOS and the Linux path give the same outcome and state if and only if the device is cycled or no mapping enters selection on the input |
| CycleRuns.PathsAgreeOnRuns | crates/weave-ios-core/src/edge_client.rs:231-255 | on a cycled device both platforms turn every sequence of inputs into the same outcomes and the same state |
| TargetSwitching.RoundAdvances | crates/edge-core/src/routing.rs:519-587 | one round of gesture, press and applied switch moves the target to the next candidate and leaves the engine ready for another |
| TargetSwitching.RoundRobin | crates/edge-core/src/routing.rs:519-587 | r rounds move the target r candidates on, modulo their number, whatever order the snapshots came in |
| TargetSwitching.EveryCandidateVisited | crates/edge-core/src/routing.rs:519-587 | on the engine, as many rounds as candidates bring the mapping back to its target, and on the way each candidate is the target of the mapping in the bucket after exactly one number of rounds |
| TargetSwitching.CandidateInForce | crates/edge-core/src/routing.rs:646-687 | after any number of rounds the engine routes with the candidate that is now the target: whatever its routes yield is emitted, with its service type and target, and an input that opens no selection is answered with what is routed |
| TargetSwitching.FeedbackCoversRouting | crates/edge-core/src/routing.rs:624-687 | whatever an input emits, the feedback lookup for its device, service and target finds the rules of the first mapping that names the pair, which is the one that spoke when no earlier one names it |
| Coalescing.PendingIntents.PushMerged | crates/edge-agent/src/main.rs:1446-1461 | the tail of the buffer is merged with a delta of its kind, anything else is appended |
| Coalescing.MergePreservesMeaning | crates/edge-agent/src/main.rs:1446-1461 | on every additive service the merged list reaches the state of the original list |
| Coalescing.BatchesPreserveMeaning | crates/edge-agent/src/main.rs:1406-1412 | the same for every way the stream is cut into drained batches |
| Coalescing.MergeKeepsTotals | crates/edge-agent/src/main.rs:1446-1461 | merging keeps the sum of the volume, brightness, colour temperature and seek deltas of every list |
| Coalescing.BatchesKeepTotals | crates/edge-agent/src/main.rs:1406-1412 | the same for every way the stream is cut into batches |
| Coalescing.MergeIsComplete | crates/edge-agent/src/main.rs:1446-1461 | two lists merge alike if and only if no additive service tells them apart |
| Coalescing.MergeHomomorphism | crates/edge-agent/src/main.rs:1446-1461 | merging is a monoid homomorphism onto merged lists and idempotent |
| Coalescing.MergeShape | crates/edge-agent/src/main.rs:1443-1461 | no two volume changes are neighbours, nor two brightness changes, colour temperature changes or relative seeks; the list never grows, everything else keeps its order |
| Coalescing.MergeFixpoint | crates/edge-agent/src/main.rs:1446-1461 | merging changes nothing exactly on lists without mergeable neighbours |
| Dispatcher.StepKeepsInv | crates/edge-agent/src/main.rs:1327-1438 | every step of the concurrent system keeps its invariant |
| Dispatcher.Conservation | crates/edge-agent/src/main.rs:1327-1438 | in every reachable state each taken intent is, for its own key, in exactly one of forwarded, waiting to be forwarded, dropped, queued, pending or executed, once, and for no other key anywhere |
| Dispatcher.InOrder | crates/edge-agent/src/main.rs:1327-1438 | per key, forwards come before everything local, and dropped and executed ++ pending ++ queued each keep the order of arrival |
| Dispatcher.WorkerStays | crates/edge-agent/src/main.rs:1342-1391 | once a key has a worker it keeps it and nothing of it is forwarded again |
| Dispatcher.Telemetry | crates/edge-agent/src/main.rs:1355-1437 | one DispatchIntent per forward that reassembles to the intent taken, one Command per intent handed to the adapter with the intent and the adapter's answer, in order, none for a forward |
| Dispatcher.PushGroupIsPush | crates/edge-agent/src/main.rs:1446-1461 | the buffer with provenance, provenance erased, is the merged buffer |
| Dispatcher.ExecutionMeansHistory | crates/edge-agent/src/main.rs:1399-1438 | in every reachable state, what the executed merged intents made of an additive service is what the accepted intents would have made of it one by one, in arrival order |
| DispatcherHistory.TakenExactly | crates/edge-agent/src/main.rs:1337-1339 | intents are numbered in the order they came in |
| DispatcherHistory.WorkerExactly | crates/edge-agent/src/main.rs:1342-1378 | a key has a worker if and only if an adapter was there when one of its intents came in |
| DispatcherHistory.ForwardedExactly | crates/edge-agent/src/main.rs:1342-1363 | an intent is forwarded, or waits to be, if and only if no adapter was there when it or any earlier intent of its key came in |
| DispatcherHistory.DroppedExactly | crates/edge-agent/src/main.rs:1380-1391 | an intent is dropped if and only if 64 intents were waiting for its key's worker when it came in |
| DispatcherHistory.AnswersExactly | crates/edge-agent/src/main.rs:1413-1437 | every executed intent carries the adapter's own answer, in order |
| DispatcherProgress.LeftAloneSettles | crates/edge-agent/src/main.rs:1327-1438 | without new intents every run is bounded, in whatever order the steps are taken, and a run that cannot be continued has nothing held, queued, pending or unreported |
| DispatcherProgress.EveryIntentIsAnswered | crates/edge-agent/src/main.rs:1327-1438 | from every reachable state the system can finish by its own steps; then every intent taken has been forwarded, dropped on a full queue or executed, once, and every executed one reported |
| DispatcherTasks.DispatcherTask.Dispatch | crates/edge-agent/src/main.rs:1337-1391 | one turn of the dispatcher loop: queue, spawn, drop when full, or forward |
| DispatcherTasks.DispatchIsSteps | crates/edge-agent/src/main.rs:1337-1391 | one turn of the dispatcher loop is a run of the concurrent system: its worker map shows every lane's queue, and what it put on the outbox is what the lane of the intent gained and no other |
| DispatcherTasks.WorkerTask.RunBatch | crates/edge-agent/src/main.rs:1406-1437 | one turn of the worker loop, whatever arrives meanwhile: what was queued and what came before the drain ended is merged, sent and reported with the adapter's answers, the rest stays queued |
| DispatcherTasks.TurnLosesNothing | crates/edge-agent/src/main.rs:1406-1437 | what a turn merges and what it leaves queued are what was queued and what came in, in order |
| DispatcherTasks.BatchIsSteps | crates/edge-agent/src/main.rs:1406-1437 | a turn, whatever comes in meanwhile that finds room in the queue, is a run of the concurrent system: receiving, taking in, merging, sending and reporting step by step leave the lane as the loop does, and touch no other |
| LastWrite.LastOfIsLast | crates/edge-agent/src/main.rs:1559-1613 | the fold is the value of a write with no later one, and absent exactly when nothing writes the key |
| LastWrite.ReplayRestores | crates/edge-agent/src/main.rs:1617-1627 | replaying a cache in any order writes every key's cached value and nothing else |
| Resync.StepKeepsInv | crates/edge-agent/src/main.rs:1553-1632 | every update, replay, send, loss, reconnect and restart keeps the protocol's invariant |
| Resync.Convergence | crates/edge-core/src/ws_client.rs:168-223 | over every run, whenever a session is up, the pump has handled its notification and nothing is in flight, the server shows the last value of every key the pump received |
| Resync.LeftAloneConverges | crates/edge-agent/src/main.rs:1575-1630 | with a session up and nothing new happening, every run of internal steps is bounded, and where it stops the server has converged |
| Resync.CanConverge | crates/edge-agent/src/main.rs:1575-1630 | such a run exists from every reachable state with a session up |
| Resync.ReceivedExactly | crates/edge-agent/src/main.rs:1572-1604 | what the pump received is the updates of the run, in order |
| Resync.BoundedQueues | crates/edge-core/src/ws_client.rs:94-94 | at most 256 frames are on the outbox and at most eight notifications wait |
| Resync.NotifyExactly | crates/edge-core/src/ws_client.rs:94-94 | a ninth notification makes the oldest give way, none does before |
| Resync.OwnersExactly | crates/edge-agent/src/main.rs:1578-1604 | a service's pump writes all of its service's keys, a device's pump all of its device's but the raw input, and no other |
| Resync.InputIsTransient | crates/edge-agent/src/main.rs:1628-1636 | raw input is in no pump's cache |
| Resync.StatePump.OnUpdate | crates/edge-agent/src/main.rs:1578-1613 | cache the frame under its key and enqueue it |
| Resync.StatePump.OnResync | crates/edge-agent/src/main.rs:1617-1627 | the replay loop enqueues every cached frame once, so the outbox ends with the cached value of every key |
| Resync.UpdateIsSteps | crates/edge-agent/src/main.rs:1578-1613 | what the pump does with an update is a run of the protocol, given room on the outbox |
| Resync.ResyncIsSteps | crates/edge-agent/src/main.rs:1617-1627 | what it does with a reconnect notification is a run of the protocol, for the order it meets its cache in |
| IosReplay.StepKeepsInv | crates/weave-ios-core/src/edge_client.rs:538-733 | every step of the iOS loop keeps its invariant |
| IosReplay.Convergence | crates/weave-ios-core/src/edge_client.rs:538-733 | in steady state with nothing on the wire the server shows the replay caches; with the outbox empty too, the last value of everything submitted |
| IosReplay.SubmittedExactly | crates/weave-ios-core/src/edge_client.rs:607-672 | what was submitted is what the app handed over during the run, in order |
| IosReplay.LostFrameIsReplayed | crates/weave-ios-core/src/edge_client.rs:559-672 | a command whose frame was lost: whatever losses, reconnects and restarts follow, when the loop is steady again the server shows the command's value, unless a newer command for the key was handed over |
| IosReplay.LeftAloneConverges | crates/weave-ios-core/src/edge_client.rs:538-733 | with a session up and nothing new, every run of the loop's steps is bounded, and where it stops the server shows everything submitted |
| IosReplay.CanConverge | crates/weave-ios-core/src/edge_client.rs:538-733 | from every reachable state one connection that holds is enough to get there |
| IosReplay.ReplayIsSteps | crates/weave-ios-core/src/edge_client.rs:560-598 | a replay, getting through or failing part-way, is a run of the protocol: its caches stay those of the loop, which has sent exactly what the run put on the wire, and the session is up if and only if the replay got through |
| IosReplay.CommandIsStep | crates/weave-ios-core/src/edge_client.rs:607-672 | a command handled in steady state is one step of the protocol, its frame sent or lost with the session, after which the protocol's cache and wire are still those of the loop |
| IosReplay.WsLoop.HandleCommand | crates/weave-ios-core/src/edge_client.rs:607-672 | a state command is cached before it is sent, whether or not sending works |
| IosReplay.WsLoop.ReplayAll | crates/weave-ios-core/src/edge_client.rs:560-598 | device cache first, then service cache, in some order of all their keys, up to the first failure; it fails if and only if it stopped before the end |
| SourceDedup.ZonePublisher.HandleEvent | crates/edge-agent/src/adapter_roon/mod.rs:209-252 | every zone event emits exactly the offered updates that changed; removal forgets the zones' values and outputs; a new subscription forgets every value |
| SourceDedup.ZonePublisher.PublishZone | crates/edge-agent/src/adapter_roon/mod.rs:278-344 | the updates of one zone are offered in order |
| SourceDedup.DedupLosesNothing | crates/edge-agent/src/adapter_roon/mod.rs:173-276 | over any sequence of zone events, removals and new subscriptions included, the fold of what was emitted equals the fold of everything offered |
| SourceDedup.ReportedExactly | crates/edge-agent/src/adapter_roon/mod.rs:278-345 | a zone report offers exactly its summary with display name and state, its playback state, what is playing if anything is, and the volume of every output that has one, each under its own roon key |
| SourceDedup.LatestIsReported | crates/edge-agent/src/adapter_roon/mod.rs:222-237 | over any sequence of events the offered updates come to the value reported last for each key, in the terms of the zone reports |
| SourceDedup.NoRepeatsBetweenRemovals | crates/edge-agent/src/adapter_roon/mod.rs:247-276 | within a subscription and between two removals of a target no key of it is sent the same value twice in a row |
| SourceDedup.RepeatsAreSilent | crates/edge-agent/src/adapter_roon/mod.rs:257-276 | once a value was sent for a key, nothing is sent for that key for as long as the zone reports nothing else there |
| SourceDedup.FirstReportIsSent | crates/edge-agent/src/adapter_roon/mod.rs:220-249 | after a new subscription, and for a removed zone that comes back, the next report is sent whatever was sent before |
| SourceDedup.OutputIsLastReported | crates/edge-agent/src/adapter_roon/mod.rs:225-250 | over any sequence of events a zone's output is one it was last reported with, and there is one exactly while the zone was reported with outputs and not removed since |
| Broadcast.MissedExactly | crates/edge-agent/src/main.rs:1573-1608 | over every run of the channel, the sets of updates that a caught-up pump has missed are exactly those with everything from before it subscribed and, beyond that, only updates followed by at least 256 others |
| Broadcast.SentIsPublished | crates/edge-agent/src/adapter_roon/mod.rs:275-275 | what went through the channel is what was published, in order |
| Broadcast.ReachIsKept | crates/edge-agent/src/main.rs:1606-1608 | a key written by one of the newest 256 updates since the pump subscribed has its last update received, however far the pump fell behind |
| EndToEnd.ServerShowsLatestZones | crates/edge-agent/src/main.rs:1553-1632 | dedup, broadcast, pump, outbox and sessions together: when quiet, the server shows the latest value the zones reported, under every key that one of the newest 256 updates since the subscription writes, and under every other whose last update the pump read in time |
| EndToEnd.ServerShowsLatestExactly | crates/edge-agent/src/adapter_roon/mod.rs:79-79 | after every run in which the system gets quiet the server shows the latest value reported for a key if and only if one of the newest 256 updates, sent since the pump subscribed, writes the key |
| EndToEnd.ServerWillShowLatestZones | crates/edge-agent/src/main.rs:1553-1632 | with a session up, the system reaches that state by its own steps alone |
| EndToEnd.OverrunLeavesOlder | crates/edge-agent/src/main.rs:1606-1608 | whenever a key's last update is followed by at least 256 others, some run of the system misses it alone and leaves the quiet server with the value before it |
| EndToEnd.MissedUpdateStaysMissed | crates/edge-agent/src/adapter_roon/mod.rs:261-276 | a missed update is not repaired: while the zone reports nothing else, a quiet server shows the older value, whatever reconnects and replays happen |
| EndToEnd.StaleServer | crates/edge-agent/src/main.rs:1603-1608 | such a run: a zone plays, pauses and has its volume changed 256 times or more; the pump misses the pause and nothing else, and although every report says paused, the quiet server shows the zone playing |
| ConfigReplica.DiskAgreement | crates/edge-core/src/ws_client.rs:225-502 | over every run, primed or not, saves failing or not: whenever the last save so far succeeded, or none was made since a successful prime, the cached mappings grouped by device are the engine's non-empty buckets |
| ConfigReplica.HandleAgrees | crates/edge-core/src/ws_client.rs:225-502 | a save that succeeds makes cache and engine agree whatever they were; a frame that does not save keeps an agreement |
| ConfigReplica.AgreesMeansSameBuckets | crates/edge-core/src/ws_client.rs:504-532 | agreement means that regrouping the cached list gives the engine's non-empty buckets |
| ConfigReplica.RestartRoutesAlike | crates/edge-core/src/ws_client.rs:153-165 | a restart through the cache routes every input alike on every device without cycle and open selection |
| ConfigReplica.RestartForgetsCycle | crates/edge-core/src/ws_client.rs:153-165 | on a cycled device the restarted agent answers an input as the running one if and only if the input does not switch the cycle, no mapping makes it open a selection, and no mapping but the active one answers it |
| ConfigReplica.RestartForgetsGesture | crates/edge-core/src/ws_client.rs:153-165 | the gesture is such an input: the running agent switches the cycle, the restarted one does nothing |
| ReplicaRuns.CyclesAreLastSent | crates/edge-core/src/ws_client.rs:225-502 | over every run of frames and inputs, from any disk, each device's cycle is the one last sent by the server, but for active, which is the one last named or reached by the gesture |
| ReplicaRuns.MappingsAreLastSent | crates/edge-core/src/ws_client.rs:225-502 | ... and its mappings are those of the plain map by id that priming and the frames leave |
| ReplicaRuns.GlyphsAreLastSent | crates/edge-core/src/ws_client.rs:225-502 | ... and the registry is that of the glyphs last brought, by a full configuration or on their own |
| ReplicaRuns.RegistryExactly | crates/weave-ios-core/src/glyph_registry.rs:34-51 | a name stands for the last glyph of the list with that name |
| ReplicaRuns.CachedExactly | crates/edge-core/src/ws_client.rs:504-532 | a full configuration is cached as it came; a frame that changes mappings or cycles caches the engine's under the agent's name with the glyphs cached before; every other frame leaves the cache alone; a failed save leaves what it leaves |
| ReplicaRuns.ChangesAreCached | crates/edge-core/src/ws_client.rs:225-502 | every frame that changes the engine is followed by a save |
| ReplicaRuns.RestartExactly | crates/edge-core/src/ws_client.rs:153-165 | a restart brings back the cached mappings, device by device and in order, and the cached glyphs, no cycle, no selection, and nothing from a missing or unreadable cache |
| ReplicaRuns.IosRunIsOps | crates/weave-ios-core/src/edge_client.rs:760-958 | on iOS a run of frames and inputs is, for the engine, the run of the operations they stand for |
| ReplicaRuns.IosGlyphsAreLastSent | crates/weave-ios-core/src/edge_client.rs:760-958 | on iOS the registry is that of the glyphs last brought |
| ConfigReplica.ConfigClient.PrimeFromCache | crates/edge-core/src/ws_client.rs:153-165 | mappings and glyphs are restored from a readable cache, cycles are not |
| ConfigReplica.ConfigClient.RefreshCache | crates/edge-core/src/ws_client.rs:507-532 | saves the engine's snapshot and cycles with the glyphs of the previous cache |
| ConfigReplica.ConfigClient.HandleServerFrame | crates/edge-core/src/ws_client.rs:225-502 | what every configuration, glyph, target and cycle frame does to engine, registry and cache |
| ConfigReplica.RegistryOfSaved | crates/weave-ios-core/src/glyph_registry.rs:34-51 | reloading a glyph registry saved in any order restores it |
| ConfigReplica.IosDiskAgreement | crates/weave-ios-core/src/cache.rs:35-75 | on iOS, over every run, writes failing or not: a file whose last write succeeded, or that was found at launch and not written since, restores every device's mappings, or the whole glyph registry, at the next launch |
| ConfigReplica.HandleIosAgrees | crates/weave-ios-core/src/edge_client.rs:760-958 | every frame that persists makes each file whose write succeeds agree with memory; every other frame keeps both agreements |
| Text.LinesExactly | crates/edge-agent/src/adapter_hue/events.rs:96-96 | a line feed ends a line and a carriage return right before it is dropped; an unended last line is kept as it is |
| EventStream.StreamOnce | crates/edge-agent/src/adapter_hue/events.rs:87-116 | payloads and buffer depend on the concatenated text only, not on its chunks |
| EventStream.DrainAppend | crates/edge-agent/src/adapter_hue/events.rs:90-95 | draining early and continuing from the buffer equals draining the whole text |
| EventStream.CutIsUnique | crates/edge-agent/src/adapter_hue/events.rs:94-95 | a text has exactly one cut into blocks, each ending at its only separator, and a rest without separator: the one the drain loop finds |
| StandardEvents.ConsumedIsDispatched | crates/edge-agent/src/adapter_hue/events.rs:87-116 | without carriage returns, the lines the adapter has consumed are those of exactly the events the standard dispatches |
| StandardEvents.StreamedIsStandardExactly | crates/edge-agent/src/adapter_hue/events.rs:87-116 | the payloads emitted so far are exactly the data lines of those events if and only if every data field consumed is written with the one space the adapter looks for |
| StandardEvents.MessagesAgreeExactly | crates/edge-agent/src/adapter_hue/events.rs:96-103 | adapter and standard give the same messages if and only if, besides, every event has one data line |
| Led.FromAscii | crates/nuimo-protocol/src/lib.rs:231-249 | the nested loops give the glyph that has the grid's stars in the first nine rows and columns, and no other bit |
| Led.ToAscii | crates/nuimo-protocol/src/lib.rs:264-275 | the rows as lines of stars and dots, separated by line feeds |
| Led.DepictsUnique | crates/nuimo-protocol/src/lib.rs:231-249 | only one glyph depicts a text |
| Led.AsciiRoundTrip | crates/nuimo-protocol/src/lib.rs:231-275 | parsing what was printed gives the glyph less its unused bits, and the glyph itself if and only if it has none |
| Led.NormalForm | crates/nuimo-protocol/src/lib.rs:231-275 | parsing and printing any text gives a grid with the same stars, in one pass, and the text itself if and only if it was a grid |
| LedPayload.ToBitmap | crates/nuimo-protocol/src/lib.rs:279-291 | bit i of the eleven bytes is pixel (i / 9, i mod 9) for i below 81 and clear above |
| LedPayload.BuildLedPayload | crates/nuimo-protocol/src/lib.rs:328-344 | pixels below bit 81, the transition in bit 84, brightness and timeout in their bytes, nothing else |
| LedPayload.PayloadsEqualExactly | crates/nuimo-protocol/src/lib.rs:328-344 | payloads are equal if and only if pixels, transition, brightness byte and timeout byte are |
| LedPayload.PayloadExactly | crates/nuimo-protocol/src/lib.rs:328-344 | thirteen bytes: pixel (r, c) is bit 9 r + c, bit 84 asks for an immediate change, no other bit of the first eleven is set, then brightness and timeout |
| LedPayload.BrightnessExactly | crates/nuimo-protocol/src/lib.rs:328-344 | the brightness byte is the clamped brightness in steps of 1/255, rounded down |
| LedPayload.TimeoutExactly | crates/nuimo-protocol/src/lib.rs:328-344 | the timeout byte is the timeout in tenths of a second, rounded down, at most 255 |
| LedPayload.ScreenShowsGlyph | crates/nuimo-protocol/src/lib.rs:264-344 | reading the payload's pixels back gives what printing the glyph gives |
| Scroll.CharBits | crates/nuimo-protocol/src/font.rs:151-164 | nothing for a character outside the font, else seven rows whose bits are the pattern's stars |
| Scroll.SupportedExactly | crates/weave-ios-core/src/feedback_pump.rs:475-484 | the characters drawn are exactly those the font has, each where it was |
| Scroll.FromText | crates/weave-ios-core/src/feedback_pump.rs:475-509 | the canvas loops give the closed form: a pixel is lit exactly when its column lies in a character's cell, not in its gap, and the pattern has a star there; no canvas exactly when no character is supported |
| Scroll.Frame | crates/weave-ios-core/src/feedback_pump.rs:517-531 | the iOS frame at column k is the closed-form frame |
| Scroll.DesktopFrame | crates/edge-agent/src/glyphs.rs:72-85 | the desktop frame, printed as ASCII and read back, is the same glyph |
| ScrollRuns.CharGlyph | crates/nuimo-protocol/src/font.rs:168-184 | the character's pattern centred on the display, or the question mark's |
| ScrollRuns.Animate | crates/weave-ios-core/src/feedback_pump.rs:535-572 | the payloads written for a text are those of every frame in order, or the one fallback glyph |
| ScrollRuns.AnimationBytes | crates/weave-ios-core/src/feedback_pump.rs:535-572 | scroll frames are shown at full brightness at once for up to a quarter of a second, the fallback fades in for two seconds |
| ScrollRuns.CharGlyphExactly | crates/nuimo-protocol/src/font.rs:168-184 | a single character stands in rows 1 to 7 and columns 2 to 6 |
| ScrollRuns.FramesExactly | crates/weave-ios-core/src/feedback_pump.rs:475-559 | the animation of n characters has 6 n + 9 frames; frame k shows the star (r, c) of character i at row r + 1 and column 9 + 6 i + c - k |
| ScrollRuns.LitIsStar | crates/weave-ios-core/src/feedback_pump.rs:475-559 | nothing but the characters' stars is lit in any frame |
| ScrollRuns.FrameShifts | crates/weave-ios-core/src/feedback_pump.rs:517-531 | each frame is the one before it moved left by one column |
| ScrollRuns.EndsAreBlank | crates/weave-ios-core/src/feedback_pump.rs:547-559 | the first and the last frame are dark |
| ScrollRuns.EveryStarCrosses | crates/weave-ios-core/src/feedback_pump.rs:475-559 | every star of the text is shown in each of the nine columns by a frame of the animation |
| ScrollRuns.AnimationShowsTextExactly | crates/weave-ios-core/src/feedback_pump.rs:475-559 | two texts give the same frames if and only if their supported characters look alike, position by position |
| Feedback.DesktopFilter.ShouldRender | crates/edge-agent/src/main.rs:2236-2261 | skips the signature last written for the key and, for volume only, what comes within 100 ms of the key's last write |
| Feedback.IosFilter.ShouldRender | crates/weave-ios-core/src/feedback_pump.rs:350-365 | the same, throttling every (device, property) key |
| Feedback.NoRepeatedFrame | crates/edge-agent/src/main.rs:2236-2261 | over any run no key gets one signature in two consecutive writes |
| Feedback.WriteRate | crates/weave-ios-core/src/feedback_pump.rs:350-365 | over any run, any window of length w holds at most w / 100 ms + 1 writes of a desktop volume or an iOS (device, property) |
| Feedback.WrittenExactly | crates/edge-agent/src/main.rs:2236-2261 | over any run the next frame is written if and only if its signature differs from the key's last write and, for desktop volumes and everything on iOS, that write is at least 100 ms old; other keys are untouched |
| FeedbackPump.DesktopPump.OnPlan | crates/edge-agent/src/main.rs:1506-1526 | a plan the filter lets through takes its property's scroll away, then starts a scroll or draws; any other changes nothing |
| FeedbackPump.IosPump.OnPlan | crates/weave-ios-core/src/feedback_pump.rs:433-455 | the same, per device and property |
| FeedbackPump.OfferExactly | crates/edge-agent/src/main.rs:1506-1526 | over any run an update that is due after its key's writes takes its slot's scroll away and is drawn, or starts to scroll, or cannot be drawn; any other changes nothing |
| FeedbackPump.SharedExactly | crates/edge-agent/src/main.rs:1511-1520 | the desktop pump has one LED and one scroll per property, whatever the target; on iOS every device has its LED and every property its scroll |
| FeedbackPump.StepShowsExactly | crates/edge-agent/src/main.rs:1506-1526 | a frame is on its LED after a step if and only if the step drew it, or it was there and the step drew nothing else on that LED |
| FeedbackPump.VisibleExactly | crates/edge-agent/src/main.rs:2170-2205 | over every run of updates, scroll frames and other writers' frames: a frame is on its LED if and only if it was drawn, by an update or by its scroll, and nothing else was drawn there since by anyone, or it was there from the start and nothing else was drawn |
| FeedbackPump.SkippedStaysVisibleExactly | crates/edge-agent/src/main.rs:2216-2244 | in every reachable state, other writers included, a frame skipped because its key was last let through the same is visible and stays so until the next update or another writer's frame if and only if it is visible and no other key's scroll runs on that LED |
| FeedbackPump.SkippedIsVisibleExactly | crates/edge-agent/src/main.rs:2216-2244 | with every plan drawable, no scroll taken away before its first frame and the key not scrolling, a skipped frame is visible if and only if the LED shows a frame of that key |
| FeedbackPump.OwnScrollDraws | crates/weave-ios-core/src/feedback_pump.rs:535-572 | a skipped frame whose own scroll is running is drawn by that scroll's next frame |
| FeedbackPump.ScrollCoversSkippedVolume | crates/edge-agent/src/main.rs:2170-2205 | a volume bar drawn over a running title scroll, reported again and skipped while visible, is covered by the scroll's next frame |
| FeedbackPump.SkippedMayBeCovered | crates/edge-agent/src/main.rs:2826-2848 | a repeated playback frame is skipped while the LED shows a track title |
| FeedbackPump.LateGlyphIsNeverDrawn | crates/weave-ios-core/src/feedback_pump.rs:217-262 | a frame let through while its glyph is missing is not drawn, and is skipped once the glyph is there |
| FeedbackPump.LastVolumeMayBeLost | crates/edge-agent/src/main.rs:2246-2256 | a volume change 50 ms after another is not drawn, and the LED keeps the older volume |
| FeedbackPump.AbandonedScrollIsNeverDrawn | crates/edge-agent/src/main.rs:1511-1520 | two zones share one slot on the desktop: the second title takes the first one's scroll away, and the first, reported again, is skipped |

## Left out

- Floating point: rotation, damping and brightness are reals; rounding, NaN and infinities are not modelled.
- JSON: frames are datatypes and values are compared as values; parsing, printing and an invalid server frame ending the session are not modelled.
- Lock interleavings: each engine method is one atomic step, although try_cycle_switch and route_with_mode release the read lock before they write.
- In-place update of a selection: SelectionMode is a value that Advance returns and the engine stores back, not a record updated through a reference.
- Bytes of the event stream: chunks are text; a UTF-8 character split between chunks is not modelled, nor is what the payloads say.
- The server: its source is not part of this model; it is a map that delivered state frames update. Frames of a session that ended are not delivered later.
- The broadcast channel itself: tokio's implementation is not part of this model; it is taken to keep the newest 256 updates and to let a receiver that lagged go on with the oldest one kept.
- Zone subscriptions follow one another; two that overlap while the adapter pairs again are not modelled.
- Seek events: the Roon adapter's seek throttle guards no action and is left out.
- Shutdown: channels that close, tasks that end and the back-off between sessions are left out.
- Display names, feedback_rules_for_target without a device, cycle_for, volume bars, digit glyphs and feedback plans: lookups and tables that would only add easy members.
- nuimo's own glyph type: it is not part of this model; its ASCII reader is taken to read as from_ascii does.
- Other writers of an LED: the device's other pumps, selection and cycle glyphs and the display's own timeout are one event that takes the pump's frame off the LED at any moment; what they draw is not part of FeedbackPump. Taking a scroll away takes effect at once, and its first frame is drawn in a step of its own.
- Timing of the animation: frames are the payloads written in order, at any moments; the 120 ms interval and the moment a scroll ends are left open.
- Additivity of services is a hypothesis of the coalescing results; a service that clamps at a limit does not satisfy it.
- Transports and platforms: BLE, HTTP, MQTT, mDNS, Core Audio, UniFFI, Swift, Hue pairing and telemetry.
