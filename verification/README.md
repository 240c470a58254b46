# ForgePanel: a verified model

ForgePanel is a control panel and a fleet of node agents.  This project models the
algorithms the two live on and proves what they are for.

- **Log shipping** (`LogRing`, `LogShipping`, `LogExactlyOnce`, `LogResend`, `LogSendRule`,
  `LogPanelRestart`, `LogNumbers`, `LogFanout`, `LogFanoutOrder`, `NodeLogHub`, `LogAgent`):
  an agent re-sends what the panel has not acknowledged over a link that loses requests and
  responses, and the panel, which may restart too, files each line once.  The protocol is a
  transition system; two classes compute its steps in place; fan-out to watching admins is
  a second transition system in which single channel sends interleave.
- **Traffic accounting** (`Traffic`, `TrafficKeys`, `TrafficRuns`, `TrafficCores`,
  `TrafficReadings`): charges from cumulative counters, over schedules in which heartbeats
  are lost and repeated, store calls fail, and two cores restart and answer each on its own.
- **Routing slice** (`RoutingSlice`, `RoutingNode`): the share of the routing table one node
  is sent, and that it means the same there.
- **Config apply** (`EngineSupervisor`, `EngineRestarts`): write, validate, rename,
  hot-apply or restart, over every run of several cores on one disk.
- **Login limiter** (`LoginLimiter`, `LoginGuard`, `LoginLockout`): a bounded table that
  forgets, against one that remembers every failure.
- **Shared-port router** (`PaasRouter`, `PaasShare`), **port guard** (`PortGuard`,
  `PortTable`), **profile sync** (`ProfileSync`), **clock offset** (`Sntp`), **link
  stamping** (`Desync`), **operation ids** (`OperationIds`).  `NodeModel`, `Texts` and `Wrappers` hold what several of them share.

Code that changes state step by step is a class or a method with a loop, proved against a
function of the state before; what the code promises is then proved of that function, over
every input or every run.  The tables such a function is made of (transports, refusals,
lockouts, keys, encodings) are each stated once more on their own, in numbers and names, and
proved to agree with it.

Where the code does less than its own comments say, the code is modelled as it is, and a
lemma states exactly when the promise holds:

- Re-sending log lines is not free with two cores (`cmd/forgenode/main.go:92-94`): batches
  are grouped by core, so a re-send need not extend the lost batch
  (`ResendExactIff`, `TwoCoresRepeatAndLose`).  The weakest rule an agent can follow that
  makes it free is `SafeToSend` (`SafeToSendIff`, `ExactlyOnceByRule`).
- A subscriber is shown the last 20 lines, not "everything the panel currently holds"
  (`internal/api/nodelogs.go:156`; `BacklogIsAllHeldIff`).
- Two cores' traffic is reported as one counter, so one core restarting, or not answering,
  can charge bytes twice (`ReadingIff`, `UnansweredIff`, `RestartRecharges`,
  `UnansweredRecharges`).
- Group members select outbounds by prefix, and the slice keeps them by name
  (`CandidatesIff`, `SliceKeepsSpreadIff`, `PrefixMemberIsLost`).
- A config that was committed but whose core did not start is not tried again, and an empty
  config does not clear a reported fault (`RetriedIff`, `FaultLastsIff`).
- A successful login does not clear the counter of a username that looks like an address
  with a port, and clears another name's (`SuccessClearsIff`, `RefusedAfterSuccessIff`,
  `ColonNameRefused`); the empty key is never evicted (`SizeIff`).
- A loopback port can meet a port the platform routes (`ClashIff`).
- AmneziaWG, UDP on the wire, claims a TCP port, so two inbounds can share a UDP port
  (`WireSharedIff`, `TunnelsShareAPort`); and a store that cannot be read lets any two share
  one (`UnreadableStoreAdmits`).
- A profile sync ignores three failures (`ReconciledIff`), and a failing one can stop half
  way (`FailedSyncIff`, `HalfApplied`).
- The start of an NTP era is read as no time at all (`RoundTripIff`).

## Model

| member | source | states |
|---|---|---|
| `Rings.LogRing.constructor` | internal/core/supervisor/supervisor.go:639-646 | a ring always has room for at least one line |
| `Rings.LogRing.Add` | internal/core/supervisor/supervisor.go:648-657 | one more line is held and no earlier one moves: the ring stands for everything ever added |
| `Rings.LogRing.AddAll` | internal/api/nodelogs.go:127-129 | lines filed one by one extend what the ring stands for by exactly those lines, in order |
| `Rings.LogRing.Since` | internal/core/supervisor/supervisor.go:667-687 | the lines from a cursor on, in the order added, and the next cursor; a cursor outside the window is moved to the oldest line still held |
| `Rings.LogRing.SnapshotN` | internal/core/supervisor/supervisor.go:697-720 | the most recent lines, oldest first, before and after the buffer wraps |
| `Rings.LogRing.Snapshot` | internal/core/supervisor/supervisor.go:722 | the last 20 lines, although `internal/core/supervisor/logring.go:22-23` promises everything held |
| `Rings.ReadIsUnseenOrWindow` | internal/core/supervisor/supervisor.go:667-687 | a read from a cursor is everything unseen or, when that is more, the window |
| `LogShipping.OneCoreRun` | internal/api/nodelogs.go:95-137 | the invariant holds after every run, with no hypothesis on how much is unacknowledged |
| `LogShipping.AtMostOnce` | internal/api/nodelogs.go:62-73 | for every run of a one-core agent: no line filed twice, positions strictly increasing per epoch, only written lines filed, and the expectation within one batch of the acknowledged count |
| `LogShipping.LateDelivery` | internal/api/nodelogs.go:112-119 | a dead agent's last request, processed late but before its successor's first one, leads where a run of the model leads, so every result over runs covers it |
| `LogExactlyOnce.ExactAck` | cmd/forgenode/main.go:120-135 | once acknowledged, what is filed of the epoch equals everything sent |
| `LogExactlyOnce.ExactlyOnce` | cmd/forgenode/main.go:86-94 | for any number of cores and every such run: what is filed of each process and core is, in order, a prefix of what it wrote, and all of it up to the mark while a response is on its way |
| `LogExactlyOnce.OneCoreExtends` | cmd/forgenode/main.go:105-119 | with one core a re-sent batch always extends the lost one |
| `LogExactlyOnce.OneCoreExactlyOnce` | cmd/forgenode/main.go:86-139 | one core and at most 200 unacknowledged lines per heartbeat: exactly once, over every run |
| `LogResend.OneCoreCompleteIff` | cmd/forgenode/main.go:120-123 | one delivery of a one-core agent loses nothing if and only if the backlog fits a batch or nothing is new |
| `LogResend.SpanPrefixIff` | cmd/forgenode/main.go:105-119 | a re-sent batch extends the lost one if and only if only the last core in it, or one after it, has written since |
| `LogResend.ResendExactIff` | internal/api/nodelogs.go:95-129 | any number of cores: a fitting re-send leaves every core filed exactly up to its last line if and only if the news is last in name order |
| `LogResend.TwoCoresRepeatAndLose` | cmd/forgenode/main.go:92-94 | two cores, one lost response and one new line of the first core: a line is filed twice and another never, against the promise that re-sending is free |
| `LogSendRule.ExactlyOnceByRule` | cmd/forgenode/main.go:86-94 | exactly once for any number of cores, over every run of an agent that sends what fits and only while, for the marks of every heartbeat it sent since the last acknowledgement, the news is last: what it can know, not what the panel processed |
| `LogSendRule.SafeToSendIff` | cmd/forgenode/main.go:120-135 | the rule cannot be weaker: it holds if and only if the next heartbeat is exact in every state the agent cannot tell from its own |
| `LogPanelRestart.FilesIff` | internal/api/nodelogs.go:95-126 | of any batch, in any state, exactly the lines among the newest 200 and not below the position expected are filed, in order, at the end; expected is zero from a process not heard, and then the line after the batch |
| `LogPanelRestart.GapFilesAll` | internal/api/nodelogs.go:121-125 | after a gap the whole of a batch is filed |
| `LogPanelRestart.PanelRestarts` | internal/api/nodelogs.go:112-126 | over every good run in which the panel also restarts: since its last restart it holds of each process and core one stretch of what was written, in order, each line once; and a delivered heartbeat leaves it holding everything that heartbeat carried, last |
| `LogPanelRestart.PanelRestartsByRule` | cmd/forgenode/main.go:86-94 | the same for any number of cores, of an agent that follows its rule |
| `LogPanelRestart.PanelRestartsOneCore` | cmd/forgenode/main.go:86-94 | the same of one core, when every heartbeat carries all that is unacknowledged |
| `LogFanout.SubscribersAccounted` | internal/api/nodelogs.go:107-183 | under every interleaving of lock sections and single sends: what was filed while a subscriber was there is, as a multiset, what it read, has queued, lost to a full channel or is in flight to it, and its backlog was filed before |
| `LogFanoutOrder.WatchersSeeOrder` | internal/api/nodelogs.go:130-146 | while publishes do not overlap, what a subscriber read and has queued is in order a part of what was filed, and with what is in flight all of it exactly when nothing was dropped |
| `LogFanoutOrder.OverlapReorders` | internal/api/nodelogs.go:136-145 | two publishes that do overlap: a watcher who was there throughout and lost nothing reads the later line first |
| `LogFanout.BacklogIsAllHeldIff` | internal/api/nodelogs.go:156-172 | the backlog and what is filed after it follow each other without gap or overlap; but the backlog is everything the panel holds, as documented, if and only if at most 20 lines had been filed |
| `LogNumbers.ReadStartsAt` | internal/core/supervisor/supervisor.go:667-687 | where a read starts, in numbers |
| `LogNumbers.UnsentIs` | cmd/forgenode/main.go:105-119 | of a core a heartbeat can carry what is unsent or the newest 400 lines |
| `LogNumbers.MergeIs` | cmd/forgenode/main.go:105-119 | a core's lines come after those of the cores before it |
| `LogNumbers.CollectIs` | cmd/forgenode/main.go:120-123 | and of all of them the newest 200 |
| `LogNumbers.OfferIs` | internal/api/nodelogs.go:138-144 | a channel takes a line unless 256 are waiting |
| `LogNumbers.OfferedIs` | internal/api/nodelogs.go:136-145 | of lines offered one by one the first wait, up to 256, and the others are gone |
| `LogNumbers.JoinShows` | internal/api/nodelogs.go:158-172 | a subscriber is shown the newest 20 lines, or all |
| `NodeLogHubs.Watcher.Offer` | internal/api/nodelogs.go:138-144 | a line is queued unless the channel is full, and then dropped |
| `NodeLogHubs.OfferAll` | internal/api/nodelogs.go:136-145 | a watcher receives the longest beginning of the new lines its channel has room for |
| `NodeLogHubs.NodeLogHub.Ring` | internal/api/nodelogs.go:80-90 | a node's buffer is created on first use and no other buffer is touched |
| `NodeLogHubs.NodeLogHub.Append` | internal/api/nodelogs.go:127-129 | filing extends one node's lines and nobody else's |
| `NodeLogHubs.NodeLogHub.Admit` | internal/api/nodelogs.go:112-126 | how much of a batch is already here, judged by epoch and sequence, and the new expectation |
| `NodeLogHubs.NodeLogHub.File` | internal/api/nodelogs.go:95-134 | the lock section is exactly the publish step of the protocol, on one node |
| `NodeLogHubs.NodeLogHub.Publish` | internal/api/nodelogs.go:95-147 | a whole publish: the protocol step, and every watcher offered exactly the new lines |
| `NodeLogHubs.NodeLogHub.Subscribe` | internal/api/nodelogs.go:158-183 | a new channel among the node's watchers, an empty queue and the last 20 lines filed |
| `NodeLogHubs.NodeLogHub.Unsubscribe` | internal/api/nodelogs.go:173-183 | that channel and no other is gone |
| `NodeLogHubs.NodeLogHub.Forget` | internal/api/nodelogs.go:186-192 | a deleted node starts afresh: lines and numbering gone, every other node untouched |
| `LogAgents.NodeAgent.CollectLogs` | cmd/forgenode/main.go:95-123 | the batch and marks of the protocol, computed by the loop over the cores in name order |
| `LogAgents.NodeAgent.CollectOne` | cmd/forgenode/main.go:112-119 | one core's unsent lines, each with its name, and its total |
| `LogAgents.NodeAgent.Accept` | cmd/forgenode/main.go:125-135 | every cursor moves to its mark and the sequence by the number of lines sent |
| `Traffic.Panel.ApplyTrafficDelta` | internal/store/traffic_snapshot.go:99-181 | usage and snapshot move together, saturating, or not at all |
| `Traffic.Panel.SetTrafficSnapshot` | internal/store/traffic_snapshot.go:184-200 | a reading is recorded without touching a user |
| `Traffic.Panel.AccountEntry` | internal/api/nodes.go:843-919 | one counter of a heartbeat, in both protocols, with every error branch; and whether it takes its user over the limit |
| `Traffic.Panel.AccountNodeTraffic` | internal/api/nodes.go:825-925 | a whole heartbeat; the cores are reloaded exactly when an active user went over the limit |
| `Traffic.Wrap64` | internal/store/traffic_snapshot.go:217-222 | the 64-bit difference of two readings |
| `Traffic.SatAdd` | internal/store/traffic_snapshot.go:128-132 | addition that stops at the largest value instead of wrapping |
| `TrafficKeys.UserOfIff` | internal/store/counterkey.go:20-39 | a counter belongs to a user if and only if its key is "u" and that user's decimal id, perhaps after zeros, positive and within 64 bits |
| `TrafficKeys.DecodesKey` | internal/store/counterkey.go:20-39 | the decoder inverts the encoder |
| `TrafficKeys.HeartbeatCharges` | internal/api/nodes.go:843-919 | a heartbeat of a user's counter charges that user its growth, saturating, or a lower reading in full, with the stamps of an observation, and changes no other user |
| `TrafficKeys.FirstContactCharges` | internal/api/nodes.go:847-861 | a first reading is recorded and charges nobody |
| `TrafficKeys.StrangerCharges` | internal/api/nodes.go:864-872 | a key that spells no id charges nobody, in either protocol, and is remembered |
| `TrafficKeys.DeltaCharges` | internal/api/nodes.go:895-915 | the older protocol charges a user the delta, and no other user |
| `TrafficKeys.ChargedByName` | internal/api/nodes.go:825-842 | conservation by name: over any schedule of growing counters a user is charged the growth of the counters whose key spells its id |
| `TrafficKeys.ReloadIff` | internal/api/nodes.go:889-924 | a heartbeat asks for the cores to be reloaded if and only if it takes some active user to its limit |
| `TrafficRuns.DeliverIsAccount` | internal/api/nodes.go:825-925 | the schedules below take exactly the steps the accounting takes |
| `TrafficRuns.ChargesAreGrowth` | internal/api/nodes.go:825-842 | conservation: with counters that only grow a user has been charged the sum, over nodes, of how far each snapshot is past its first reading |
| `TrafficRuns.RedeliveryIsFree` | internal/api/nodes.go:833-842 | delivering the same totals again changes nothing |
| `TrafficRuns.RepeatedDeltaChargesTwice` | internal/api/nodes.go:920-925 | the older protocol of deltas charges a repeated heartbeat a second time |
| `TrafficRuns.ChargedAreEnforced` | internal/api/nodes.go:889-919 | whoever a heartbeat charges does not leave it active at or over a limit, and going over is what asks for a reload |
| `TrafficCores.CreditLaw` | cmd/forgenode/main.go:544-562 | over every run in which the two cores restart and answer each on its own: what was charged differs from what was served by exactly the credit of restarts, per counter |
| `TrafficCores.ChargesAreServed` | internal/store/traffic_snapshot.go:208-222 | no user is charged more than was served since first contact in any run where a reading below the recorded one finds nothing of that one left in a core that did not restart, and a first reading leaves no core out |
| `TrafficReadings.TogetherNeverOvercharges` | internal/store/traffic_snapshot.go:208-222 | so never on a node whose users are all served by one core or whose cores restart together, while those answer |
| `TrafficReadings.ReadingIff` | cmd/forgenode/main.go:544-562 | a full reading ends within what was served if and only if it did not drop or restarts took as much as was on record |
| `TrafficReadings.KeptReadingIff` | cmd/forgenode/main.go:544-562 | where all uncharged bytes still show: if and only if it did not drop or nothing recorded is left in a core that did not restart |
| `TrafficReadings.UnansweredIff` | cmd/forgenode/main.go:576-590 | a heartbeat for which a core did not answer is harmless, once all is read again, if and only if what restarts took before it and since covers what the two readings charge again; users are served and cores restart in between |
| `TrafficReadings.UnansweredAloneIff` | cmd/forgenode/main.go:576-590 | with nothing taken by restarts: if and only if its sum was not below the one on record |
| `TrafficReadings.RestartRecharges` | cmd/forgenode/main.go:544-562 | one core restarts, nothing is served, and the other core's whole total is charged again |
| `TrafficReadings.UnansweredRecharges` | cmd/forgenode/main.go:576-590 | one core does not answer once, nothing is served, and both totals are charged again |
| `RoutingSlice.CollectOnNode` | internal/api/nodes.go:416-428 | the tags of the inbounds here, made from the port where the operator gave none |
| `RoutingSlice.NarrowTags` | internal/api/nodes.go:434-443 | the inbounds of a rule that are here, in order |
| `RoutingSlice.NarrowRules` | internal/api/nodes.go:429-453 | the rules that apply here, narrowed |
| `RoutingSlice.KeepReferencedGroups` | internal/api/nodes.go:465-482 | exactly the groups a kept rule targets |
| `RoutingSlice.KeepReferencedOutbounds` | internal/api/nodes.go:497-527 | exactly the outbounds a kept rule, or a member or fallback of a kept group, names |
| `RoutingSlice.NodeRoutingSpecs` | internal/api/nodes.go:407-456 | the whole slice |
| `RoutingSlice.DecideIsFirst` | internal/core/engine/routing.go:279-298 | the reference meaning of a table: the rule picked matches and none before it does |
| `RoutingSlice.SliceKeepsDecision` | internal/api/nodes.go:407-456 | for every flow entering an inbound on the node, first match over the slice picks the image of the rule the full table picks |
| `RoutingSlice.SliceKeepsTarget` | internal/api/nodes.go:465-527 | every kept rule leads where it led: the same group with all members and its fallback, or the same outbound |
| `RoutingSlice.NothingUnreferenced` | internal/api/nodes.go:484-496 | a node learns no inbound of another, no group no rule of its own selects and no outbound nothing names |
| `RoutingSlice.ShippedIff` | internal/api/nodes.go:484-527 | an outbound travels if and only if the full table spells its tag out for the node: as the target of a rule that applies here, or as a member or the fallback of a group such a rule targets |
| `RoutingSlice.CandidatesIff` | internal/core/engine/routing.go:69-71 | members select by prefix: a group balances over the same outbounds on the node as on the panel if and only if the full table spells out for the node every outbound it so selects |
| `RoutingSlice.SliceKeepsSpreadIff` | internal/api/nodes.go:407-456 | decision and destination together, for every flow, with members read by prefix: the decision is kept, and the flow is spread over the same outbounds if and only if the table spells out every one its target selects |
| `RoutingSlice.PrefixMemberIsLost` | internal/core/engine/routing.go:69-71 | and a group of "relay" loses "relay-eu" in the slice |
| `RoutingNode.AssignTag` | internal/core/engine/multi.go:107-109 | the renderer's tag: the operator's, or "in-" and the port |
| `RoutingNode.OnNodeIff` | internal/api/nodes.go:416-428 | the panel takes for the node's tags exactly those its inbounds are rendered with |
| `RoutingNode.NodeDecides` | internal/api/nodes.go:407-456 | for a flow entering through any inbound of the node, under the tag that is rendered with: a rule of the full table decides it if and only if one of the slice does, of the same name, condition and target, and the target leads where it led |
| `RoutingNode.NodeNames` | internal/api/nodes.go:443-448 | every inbound a shipped rule mentions is rendered on the node |
| `RoutingNode.ExitIs` | internal/core/engine/routing.go:279-293 | the reference meaning of an exit: one of the two built in, the first outbound of that tag, or none |
| `RoutingNode.TargetIs` | internal/core/engine/routing.go:96-103 | and of a target: the group of that tag with all members and its fallback, or else "block"; or the exit |
| `RoutingNode.OneRule` | internal/api/nodes.go:429-453 | a rule is kept as it is without a scope, left out when its scope is elsewhere, and otherwise narrowed |
| `RoutingNode.RulesPiecewise` | internal/api/nodes.go:429-453 | rules are kept in order, as often as they stand there |
| `RoutingNode.TagsPiecewise` | internal/api/nodes.go:434-443 | so are a scope's tags |
| `RoutingNode.GroupsPiecewise` | internal/api/nodes.go:465-482 | and groups |
| `RoutingNode.OutsPiecewise` | internal/api/nodes.go:497-527 | and outbounds |
| `EngineSupervisor.TempKeepsExtension` | cmd/forgenode/engines.go:293-315 | the temporary file keeps the extension the core reads the format from |
| `EngineRestarts.TempIs` | cmd/forgenode/engines.go:316-322 | the temporary name is the name with .tmp before its extension |
| `EngineSupervisor.EngineProc.Apply` | cmd/forgenode/engines.go:147-259 | the steps in the source's order compute the transition below, for every outcome of every outside call |
| `EngineSupervisor.EngineProc.Stop` | cmd/forgenode/engines.go:281-288 | nothing runs and no start time is kept |
| `EngineSupervisor.RunKeeps` | cmd/forgenode/main.go:288-311 | over every run of every core on one disk, whatever configs arrive and whatever fails |
| `EngineSupervisor.ShippedApart` | cmd/forgenode/engines.go:51-75 | the two engines' files and temporary files are four different files |
| `EngineSupervisor.AgentRuns` | cmd/forgenode/main.go:288-311 | from a fresh agent on any disk |
| `EngineSupervisor.RefusedRun` | cmd/forgenode/engines.go:161-184 | over every run of refused or uncommittable configs no core is restarted or stopped, none changes config and no committed file is touched |
| `EngineSupervisor.RetriedIff` | cmd/forgenode/engines.go:148-150 | a config that did not come up is tried again by the next identical heartbeat if and only if it was never committed |
| `EngineSupervisor.FaultLastsIff` | cmd/forgenode/engines.go:147-259 | over every run a reported fault stays reported if and only if no new config of that core comes up: neither a refused config nor the empty one clears it |
| `EngineRestarts.HotApplyKeepsProcess` | cmd/forgenode/engines.go:187-199 | a committed change the running core takes leaves the process alone, serves the new config and clears the fault, whatever starting it would have done |
| `EngineRestarts.RestartIsReported` | cmd/forgenode/engines.go:210-257 | one it does not take ends the process: with a binary a new one is started, and what is then served and reported |
| `EngineRestarts.RefusalIsReported` | cmd/forgenode/engines.go:160-184 | the fault of a config that is not committed is that of the first step that failed, and no temporary file is left |
| `EngineRestarts.CommitIsClean` | cmd/forgenode/engines.go:179-186 | the committed config is in its file and nothing in the temporary one |
| `EngineRestarts.EmptyStops` | cmd/forgenode/engines.go:153-158 | an empty config leaves no process, no start time and no file |
| `EngineRestarts.SameConfigIsNothing` | cmd/forgenode/engines.go:148-150 | the config on record changes nothing |
| `EngineRestarts.ProcessKeptIff` | cmd/forgenode/engines.go:147-259 | over every run of every core: a running core keeps its process if and only if neither an empty config nor a committed new one it did not take arrives |
| `LoginLimiters.NormalizedIff` | internal/api/ratelimit.go:61-77 | which usernames' keys the address clean-up leaves alone |
| `LoginLimiters.Backoff` | internal/api/ratelimit.go:109-112 | the escalating lockout: none for four failures, never more than 320 seconds |
| `LoginLimiters.Victim` | internal/api/ratelimit.go:158-169 | the entry to evict is one seen least recently; a tie goes to any of them |
| `LoginLimiters.LoginLimiter.MaybeSweep` | internal/api/ratelimit.go:127-140 | at most once a minute, exactly the unlocked entries idle for the time to live go |
| `LoginLimiters.LoginLimiter.DropExpired` | internal/api/ratelimit.go:134-139 | the deletion loop removes exactly the expired entries, in whatever order the map is walked |
| `LoginLimiters.LoginLimiter.EvictIfFull` | internal/api/ratelimit.go:144-170 | at capacity expired entries go first, then the least recently seen |
| `LoginLimiters.LoginLimiter.Allowed` | internal/api/ratelimit.go:79-94 | the answer for an address, and that asking only refreshes its entry |
| `LoginLimiters.LoginLimiter.AllowedKey` | internal/api/ratelimit.go:197-214 | the answer for a username, with its own budget |
| `LoginLimiters.LoginLimiter.Fail` | internal/api/ratelimit.go:96-116 | a failure is charged to one address and locks it by its count |
| `LoginLimiters.LoginLimiter.FailKey` | internal/api/ratelimit.go:221-235 | a failure is charged to one username and locks it flatly |
| `LoginLimiters.LoginLimiter.Success` | internal/api/ratelimit.go:118-123 | the cleaned-up key, and no other, is forgotten |
| `LoginGuard.RunForgives` | internal/api/ratelimit.go:79-235 | so it is after every history |
| `LoginGuard.OnlyForgives` | internal/api/ratelimit.go:144-146 | simulation: a refusal is one that a limiter which never forgets would also have given |
| `LoginGuard.RefusalsAreRecent` | internal/api/ratelimit.go:38-46 | an address is refused only within 320 seconds of one of its failures, of which there were at least five; a username only within 60 seconds of one, after fifty |
| `LoginGuard.MixedKeysOverstay` | internal/api/loginguard.go:45-49 | why the keys are kept apart: an address also struck as a username is refused after two failures |
| `LoginGuard.ExactWhileQuiet` | internal/api/ratelimit.go:79-235 | for a key never left alone, unlocked, for the time to live and never evicted, whatever happens to others, every answer is exactly that of the limiter that never forgets |
| `LoginGuard.RoomForAll` | internal/api/ratelimit.go:144-150 | nothing is evicted while no more keys failed than the table holds |
| `LoginGuard.SweepKeepsLocked` | internal/api/ratelimit.go:134-139 | sweeping never removes a locked entry |
| `LoginGuard.SizeIff` | internal/api/ratelimit.go:144-170 | a failure leaves the table within its bound if and only if it is not full with the empty string seen least recently |
| `LoginLockout.BackoffIs` | internal/api/ratelimit.go:109-114 | 10 seconds for the fifth failure, twice the last up to the tenth, 320 seconds from then on |
| `LoginLockout.AddressRefusedIff` | internal/api/ratelimit.go:79-116 | an address never left alone for the time to live nor evicted is refused from its last failure until that many seconds after it, and at no other time |
| `LoginLockout.FailuresLock` | internal/api/ratelimit.go:96-116 | the same from nothing, for any times of failure within the time to live of each other |
| `LoginLockout.FailuresLockName` | internal/api/ratelimit.go:197-235 | a username is refused for a minute after its fiftieth failure and each later one, and at no other time |
| `LoginLockout.AskForgetsIff` | internal/api/ratelimit.go:127-140 | asking drops exactly the entries stale by then, once a minute, and refreshes the one asked for |
| `LoginLockout.RoomCosts` | internal/api/ratelimit.go:144-170 | room in a full table costs the stale entries and, where they are too few, one seen least recently |
| `LoginLockout.FullStrikeKeeps` | internal/api/ratelimit.go:96-103 | so a new key in a full table costs the others no more than that |
| `LoginLockout.RoomyStrikeKeeps` | internal/api/ratelimit.go:96-103 | and while there is room, or it has an entry already, nothing |
| `LoginGuard.Bounded` | internal/api/ratelimit.go:24-27 | with no failure charged to the empty string the bound holds over every history |
| `LoginGuard.EmptyKeyOverflows` | internal/api/ratelimit.go:166-169 | with one, a table for one holds two |
| `LoginGuard.SuccessClearsIff` | internal/api/loginguard.go:99-111 | a successful login removes the address's entry, and the username's if and only if the address clean-up, applied to its key too, leaves it alone: not for a name with a single colon or a closing bracket, whose entry stays as it is |
| `LoginGuard.RefusedAfterSuccessIff` | internal/api/loginguard.go:99-111 | one failure short of the budget, a login that succeeds and one more failure: the owner is refused if and only if the clean-up changes the username's key |
| `LoginGuard.ColonNameRefused` | internal/api/loginguard.go:106-111 | for every name of two parts around a colon, as the panel accepts, the owner is refused, and each login clears the counter of the name before the colon instead |
| `LoginGuard.BracketsDropped` | internal/api/ratelimit.go:69 | a key that ends with brackets is cut to what precedes them |
| `LoginGuard.LoginAllowed` | internal/api/loginguard.go:55-66 | an attempt is let through exactly when neither the address nor the username is refused |
| `LoginGuard.LoginFailed` | internal/api/loginguard.go:76-83 | a failed attempt is charged to the address and then to the username |
| `LoginGuard.LoginSucceeded` | internal/api/loginguard.go:103-111 | a successful one clears both keys |
| `PaasRouter.RoutableIsOneOfThree` | internal/api/paas.go:86-156 | every inbound is shared by path, on its own port, or refused for a reason, exactly one of them, and a port the platform routes wins |
| `PaasRouter.RewriteKeepsPath` | internal/api/paas.go:202-233 | the core's copy answers on the path its route is chosen by, on loopback and without TLS; an own-port copy keeps port and security |
| `PaasShare.SharedIff` | internal/api/paas.go:86-156 | which inbounds share the port, and at which path: by protocol, network, the edge and what was entered |
| `PaasShare.RefusedIff` | internal/api/paas.go:86-156 | which have a port of their own; and for which reason exactly the others are refused |
| `PaasShare.SharedCopy` | internal/api/paas.go:214-233 | what the core is given of a shared inbound, field by field |
| `PaasShare.OwnCopy` | internal/api/paas.go:202-212 | and of one on its own port |
| `PaasShare.SpecKeepsUsers` | internal/api/paas.go:262-287 | a row keeps its users, and its certificate only where nothing terminates in front |
| `PaasShare.MatchIff` | internal/api/paas.go:317-319 | a path is for itself and whatever is below it, and not for its neighbours |
| `PaasShare.RouteIsFirst` | internal/api/paas.go:271-291 | a route leads to the first row with its path, at 39000 and the row's place in the list |
| `PaasShare.EveryPathRouted` | internal/api/paas.go:271-291 | and every path in use has one |
| `PaasRouter.PaasSpecs` | internal/api/paas.go:238-297 | the specs, the skipped rows with their reasons and the sorted table, each row's share determined by the rows alone |
| `PaasRouter.ListsAccount` | internal/api/paas.go:253-296 | the lists returned account for every configured row; routes differ in port and path; each leads to a core bound on loopback at that port, without a certificate |
| `PaasRouter.ByLengthSorts` | internal/api/paas.go:293-295 | the table is the routes, none lost or added, longest prefix first |
| `PaasRouter.Router.Match` | internal/api/paas.go:314-323 | the first route of the table that matches |
| `PaasRouter.FirstIsLongest` | internal/api/paas.go:246-250 | the first match of a sorted table is a longest one |
| `PaasRouter.RequestReaches` | internal/api/paas.go:314-323 | a request reaches exactly the row served by the longest matching path, on the port its core was told to bind, and the panel exactly when there is none |
| `PaasRouter.BelowPrefixReaches` | internal/api/paas.go:49-54 | anything below an inbound's path reaches it if and only if no longer path matches |
| `PaasRouter.OrderFree` | internal/api/paas.go:246-250 | permuting rows with distinct paths: whoever serves a request goes on serving it, so nobody loses one to another row or to the panel |
| `PaasRouter.OrderFreeIff` | internal/api/paas.go:246-250 | row order decides nothing about who serves a request, nor whether anyone does, if and only if no two different rows have one path |
| `PaasRouter.ClashIff` | internal/api/paas.go:43-46 | a loopback port can meet a TCP port the platform routes if and only if the platform routes one of those the table gives out, against the comment that it never can |
| `PortGuard.OverlapsIff` | internal/api/portcheck.go:54-60 | two claims overlap exactly when they share a port, and the port reported is the least they share |
| `PortGuard.ParseHopRanges` | internal/api/portcheck.go:66-90 | the port-hopping list, entry by entry |
| `PortGuard.HopRangesConcat` | internal/api/portcheck.go:62-65 | one malformed entry takes nothing from the others |
| `PortGuard.HopRangeReads` | internal/api/portcheck.go:66-90 | a range printed either way round, with either separator, or a single port, is read back |
| `PortGuard.InboundClaims` | internal/api/portcheck.go:105-146 | every port range an inbound binds, in its name |
| `PortTable.ClaimsIff` | internal/api/protoswitch.go:277-320 | the table: the ports and transports claimed by every protocol, network and mode |
| `PortTable.HopRangeIff` | internal/api/portcheck.go:66-90 | an entry is the range between two numbers, in either order around a dash or a colon, or one, and otherwise nothing |
| `PortGuard.WireSharedIff` | internal/api/protoswitch.go:277-320 | what is bound, where AmneziaWG answers UDP (`internal/api/paas.go:159-165`): over every run two stored inbounds answer on one port if and only if one is AmneziaWG and the other claims that port for UDP |
| `PortGuard.WirePanelIff` | internal/api/protoswitch.go:277-320 | and one answers on a port the panel claims if and only if it is AmneziaWG and the claim is for UDP |
| `PortGuard.TunnelsShareAPort` | internal/api/protoswitch.go:284-289 | the run of two creates that stores WireGuard and AmneziaWG on one UDP port |
| `PortGuard.FindConflict` | internal/api/portcheck.go:227-294 | no conflict exactly when no other inbound, panel port or foreign socket holds a wanted port; otherwise a true report of a holder and the least free suggestion |
| `PortGuard.PortConflictFor` | internal/api/portcheck.go:198-225 | the same of the normalised inbound, and no conflict for one that shares the public port behind a platform edge |
| `PortTable.AcceptsIff` | internal/api/portcheck.go:250-293 | accepted exactly when no wanted port is taken and no other process, the panel's engines apart, listens on one |
| `PortTable.ReportIs` | internal/api/portcheck.go:251-292 | what is reported is true of the port and of the holder named |
| `PortTable.SuggestionIs` | internal/api/portcheck.go:382-404 | the least port from the start and from 1024 up that is idle on every transport needed |
| `PortTable.SharesIff` | internal/api/paas.go:490-503 | which inbounds share the platform's public port |
| `PortGuard.SuggestPort` | internal/api/portcheck.go:382-404 | the least unprivileged port at or above the start free on every transport needed, or none |
| `PortGuard.RunKeeps` | internal/api/portcheck.go:17-31 | over every run of creates, updates and deletes in which the store can be read, inbounds stay apart from each other and from the panel |
| `PortGuard.NoPortTwice` | internal/api/portcheck.go:17-31 | as ports: from nothing, no port of one transport is then ever claimed twice |
| `PortGuard.UnreadableStoreAdmits` | internal/api/portcheck.go:233-235 | one failed read in a run of two creates and the same port is claimed twice |
| `PortGuard.SuggestionWorksIff` | internal/api/portcheck.go:351-360 | asked again with its own suggestion the guard accepts if and only if the port-hopping ranges were acceptable themselves; without port hopping always |
| `ProfileSync.UnnamedRemarksDiffer` | internal/protocol/profile/materialise.go:95-102 | rows of different nodes without names are still told apart |
| `ProfileSync.MaterialisedIff` | internal/protocol/profile/materialise.go:43-102 | a binding is materialised exactly when its port is one, its listen address can be bound and the node is valid; and then with its own port and public name, the remark of profile and node, no tag, and the rest the template's |
| `ProfileSync.SyncedRows` | internal/api/profiles.go:265-315 | after a fault-free sync: an existing row has the new node and is as enabled as it was, a new one is enabled, and a binding that is off has none |
| `ProfileSync.TurnFaults` | internal/api/profiles.go:294-315 | what a store call that fails leaves: a row not saved or not made as it was; a row made but not recorded stays, owned by nobody |
| `ProfileSync.TurnOff` | internal/api/profiles.go:268-278 | and what is left of a binding that is off |
| `ProfileSync.WantedIs` | internal/api/profiles.go:262-317 | the number reported is that of the bindings that are to serve |
| `ProfileSync.Store.SyncBinding` | internal/api/profiles.go:265-315 | one turn of the loop, with every store call's failure |
| `ProfileSync.Store.SyncProfile` | internal/api/profiles.go:243-318 | the loop, and the number of bindings applied |
| `ProfileSync.ForeignUntouched` | internal/api/profiles.go:298-304 | rows no binding owns are never touched, also when the sync fails half way |
| `ProfileSync.ReconciledIff` | internal/api/profiles.go:268-278 | a sync that reports success reconciled the profile if and only if no ignored delete or save failed and no existing row failed to read |
| `ProfileSync.SettledIsFixed` | internal/api/profiles.go:294-303 | a reconciled profile is a fixed point |
| `ProfileSync.SyncReachesFixedPoint` | internal/api/profiles.go:237-242 | without faults, from any state and whatever rows were deleted beforehand: success exactly when every binding that serves can be materialised, then reconciled, and a second sync changes nothing |
| `ProfileSync.FailedSyncIff` | internal/api/profiles.go:287-292 | without store faults a failing sync changes nothing if and only if every binding before the one it fails at was reconciled already, against the comment that one bad binding fails the whole sync |
| `ProfileSync.HalfApplied` | internal/api/profiles.go:287-292 | two bindings, the second without a port: the first row is rewritten and the sync fails |
| `ProfileSync.ProfileReachesFixedPoint` | internal/protocol/profile/materialise.go:43-93 | with the profile's own materialisation: success exactly when every binding that serves is usable, then all rows carry the template's definition, and a second sync changes nothing |
| `Sntp.TimeToNTP` | internal/api/diag_handlers.go:319-323 | 64 bits whose upper half is the second, modulo an era, and whose lower half is the fraction rounded down |
| `Sntp.WordReads` | internal/api/diag_handlers.go:268-269 | the words of a timestamp are big-endian |
| `Sntp.ReplyIsRefused` | internal/api/diag_handlers.go:253-272 | which replies are refused and why, from the bytes, in the order they are looked at |
| `Sntp.ReplyIsAnswered` | internal/api/diag_handlers.go:268-275 | and what every other reply is answered with, rounded toward zero |
| `Sntp.DividesIff` | internal/api/diag_handlers.go:321 | when the fraction is exact |
| `Sntp.ThereAndBack` | internal/api/diag_handlers.go:319-332 | the round trip of every instant: whole eras lost, at most a nanosecond lost, nothing gained, the start of an era not a time at all |
| `Sntp.RoundTripIff` | internal/api/diag_handlers.go:317-332 | good to a nanosecond and never late if and only if the instant is in the first era and not its start; exact if and only if its nanoseconds are a multiple of 5 to the 9th |
| `Sntp.TimestampsOrdered` | internal/api/diag_handlers.go:319-323 | within the era timestamps are ordered as instants are |
| `Sntp.OffsetError` | internal/api/diag_handlers.go:273-275 | the computed offset is within half the difference of the delays, so half the round trip, plus a nanosecond and a half |
| `Sntp.SymmetricDelays` | internal/api/diag_handlers.go:273-275 | with equal delays it is the true offset or one nanosecond less |
| `Sntp.LegsFit` | internal/api/diag_handlers.go:275 | the sum of the two legs fits its integer while both clocks are in the era |
| `Sntp.ProductsFit` | internal/api/diag_handlers.go:319-332 | no product the two conversions form leaves 63 bits, so the model's integers are the code's |
| `Sntp.NextEraReadsShort` | internal/api/diag_handlers.go:325-332 | once the server's clock passes the era the same transaction reads a whole era short |
| `DesyncLinks.ComponentAlphabet` | internal/api/desync.go:49-56 | an encoded value has no plus, equals sign, ampersand, hash, question mark, semicolon or space |
| `DesyncLinks.ComponentDecodes` | internal/api/desync.go:49-56 | every byte string comes back, under a decoder that keeps a plus sign as under one that does not |
| `DesyncLinks.StampKeepsLink` | internal/api/desync.go:16-19 | a stamped link keeps every byte: the old body, the new fields at the end of the query, the old fragment |
| `DesyncLinks.StampReads` | internal/api/desync.go:37-47 | the panel's own parser sees every old value and the configured ones |
| `DesyncLinks.StampIdempotent` | internal/api/desync.go:37-40 | stamping a stamped link changes nothing, whatever the setting |
| `DesyncLinks.ClientReads` | internal/api/desync.go:49-53 | the client finds the configured profile exactly once, and the configured arguments after whatever arguments the link already had |
| `DesyncLinks.StampedIff` | internal/api/desync.go:19-47 | exactly which links are stamped, and with what, in terms of the link's parts |
| `DesyncLinks.NoQueryIsKept` | internal/api/desync.go:30-33 | a link without a query is left alone |
| `DesyncLinks.ByteIs` | internal/api/desync.go:49-56 | how each byte is encoded |
| `DesyncLinks.FieldIs` | internal/api/desync.go:34-37 | how the panel's parser reads a field |
| `DesyncLinks.UnescapePercent` | internal/api/desync.go:34-37 | how it decodes a percent sign, in either case of digits, or fails |
| `DesyncLinks.UnescapePlain` | internal/api/desync.go:34-37 | and any other byte, a plus sign as asked |
| `OperationIds.TriesBounded` | internal/api/openapi.go:266-278 | by pigeonhole at most as many tries fail as ids are used, so the unbounded loop ends |
| `OperationIds.UsedIds.Unique` | internal/api/openapi.go:266-278 | the first free candidate, within that bound, and it is the only id that becomes used |
| `OperationIds.AssignIds` | internal/api/openapi.go:81-92 | one id for each name, pairwise distinct |
| `OperationIds.AssignedOnce` | internal/api/openapi.go:71-79 | the same names always get the same ids |
| `OperationIds.NameKeptIff` | internal/api/openapi.go:266-270 | a name keeps its own id exactly when nothing before it was given it |
| `OperationIds.RepeatIsNumbered` | internal/api/openapi.go:271-278 | and otherwise it is numbered, from 2 up, with the first number not yet given to it |
| `Texts.ItoaInjective` | internal/api/openapi.go:272 | decimal printing is injective |
| `Texts.ItoaValue` | internal/store/counterkey.go:20-22 | what is printed has the number's value by place, without a leading zero |
| `Texts.NumeralIff` | internal/store/counterkey.go:34 | a text is read as a number if and only if it is that number printed, perhaps after zeros |
| `Texts.TrimIs` | internal/api/portcheck.go:69 | trimming takes white space off both ends and nothing else |

## Left out

- HTTP handlers, websockets, TLS, process and file system calls: each call becomes a step that may fail, with its outcome a parameter.
- Locks: a locked section is one step; races inside one cannot be expressed, and none of the modelled state is touched outside its lock except the channel sends `LogFanout` interleaves.
- Heartbeats delivered out of order: a request is processed before the next one is, or not at all.  A request that outlives its agent is covered by `LateDelivery`.
- LogPanelRestart.PanelRestarts: a request is not lost with the panel that had it; it reaches the new one, or counts as lost.
- Forgetting a node while its agent runs: `Forget` is proved as one call and is not a step of the log-shipping runs.
- LogFanoutOrder.WatchersSeeOrder: publishes of one node that overlap can interleave their sends (`OverlapReorders`), and then only the multisets of `SubscribersAccounted` are promised.
- LogFanout: one node's hub; `NodeLogHub` shows that nodes do not touch each other.
- LogAgents.NodeAgent.CollectLogs: the cores are given in name order; sorting the map's keys is not modelled.
- Traffic: upload and download halves, usage history rows, the retired-counter clean-up and the audit of a limit.
- TrafficCores.ChargesAreServed: two cores, as the agent has; whether a reading is below the recorded one is judged over node and panel together, since a node that lost a response cannot tell which is on record; a node is new to the panel when the run starts, and each counter occurs once per heartbeat.
- TrafficReadings.UnansweredIff: between the two heartbeats no other one is delivered.
- TrafficRuns.ChargesAreGrowth: assumes heartbeats in the order they were collected and each counter once per heartbeat, as a map gives it.
- RoutingSlice: domains, addresses, ports and users of a rule are an abstract condition; strategy and probe of a group travel unchanged and decide nothing here.
- EngineSupervisor: a core that exits by itself; the agent goes on regarding it as supervised, and so does the model.
- EngineSupervisor.EngineProc.Apply: the data directory is part of the engine's path, and the previous config handed to the hot-apply call is not modelled, since its outcome is a parameter.
- LoginLimiters.Normalized: address parsing; addresses are taken as already canonical, and only what the clean-up does to a username's key is modelled, with the username already trimmed and in lower case.
- LoginLimiters.LoginLimiter.Allowed: one clock reading per call, where the code reads the clock up to three times; the counters for observability.
- LoginGuard: alerts about locked addresses.
- PaasRouter: the wording of a refusal, which depends on the platform's name; rewriting stored addresses to the platform's own (`internal/api/paas.go:420-487`).
- PaasRouter.PaasSpecs: the standard library's stable sort is a function; nodes are values, so that the stored node is not mutated holds by construction.
- PortGuard.PortConflictFor: an unknown protocol (which claims nothing) is not among the fifteen, and the two scans of host sockets are one.
- PortGuard.WireSharedIff: runs are outside platform mode, and what AmneziaWG binds is taken from the panel's own list of UDP-only protocols.
- PortGuard: the names of holders and the sentence shown to the operator.
- ProfileSync.Materialise: defaulting, validation and address parsing are parameters; `ProfileReachesFixedPoint` asks of defaulting that it leave address and definition alone.
- ProfileSync: identifiers of deleted rows are not reused; other profiles' bindings appear only as the rows no binding owns.
- Sntp.LegsFit: outside the first era the source's durations saturate; the model's do not.
- DesyncLinks: which of two `pngargs` fields the client prefers; the lemma gives all of them in order.
- OperationIds: how a name is derived from a route and the order of the routes.
- Cryptography, certificates, credential minting, health roll-ups, the authorisation table and the web frontend.
