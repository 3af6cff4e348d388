# Zonal shift controller: a verified model

The controller reacts to zonal-shift events. An in-progress event takes the impaired zone out of every Karpenter
node pool and protects or taints the nodes of that zone; a terminal event puts things back. This project models the
three parts of the controller where order, failure and repetition matter, and proves what they guarantee over every
run.

**The batch runner.** `Batches` holds the sequential loops (cutting items into batches, draining the closed error
channel). `BatchRunner` is the concurrent protocol as a transition system: the spawning caller, one worker per batch,
the 20-slot semaphore, the buffered error channel, the wait group and the context. A sequence of steps is an
interleaving; every theorem there quantifies over all of them.

**The node-pool protocol.** `Pools` says what one update and one restore make of one pool, with the zone requirement
treated as a lens (`ZoneValues`, `SetZone`) and the meaning of a pool given by `Admits`: the zones that satisfy *all*
its zone requirements. `PoolClient` holds the handlers as the imperative loops they are, proved against those
functions. `PoolHandlers` is the concurrent system: every arriving event starts a handler, a handler takes one snapshot
of all pools, and every patch, creation and deletion is a step of its own that may be refused. `PoolTheorems`,
`AutoMode`, `AutoTheorems`, `WholeRuns` and `Overlaps` prove what survives every interleaving. The proofs project the cluster to a
single pool (`PoolHandlers.StepProjects`) and keep an invariant that also speaks about the snapshots in flight. A
*plain* pool is one that handlers only ever change in place: in standard mode every pool, in auto mode every pool but
`general-purpose`, `system` and their copies.

**The nodes.** `NodeStores` is the keyed store. `Informer` is the race between informer events and the list-then-add
initialiser. `NodePasses` says what the protect, unprotect, taint and untaint passes do to nodes when any API call may
fail; `NodeControllers` holds the loops themselves, and `EventNodes` says which passes an event calls for in which mode.
`Schedules` joins the batch runner with a node pass, every Get and every Update a step of its own, and proves that the
outcome does not depend on the schedule.

## Where laws fail, and exactly when

Some laws one would expect of the code hold only under a condition. Each is stated as an if-and-only-if over all
inputs of the kind it names; `Witnesses` has a concrete failing input for each, unless another module is named.

- An update takes the away zone out of what a pool admits, and nothing else, unless the first zone requirement is
  `NotIn` or `Exists` and no later one rules the zone out: the operator is never looked at (`Pools.UpdateShiftsAwayIff`,
  input `NotInLetsZoneIn`).
- A pool without zone requirement gets the away zone *in* if the cluster has no other zone (`Pools.UpdateAddsZonesIff`).
  In that case a repeated event changes the pool again, and duplicates can be told from a single delivery
  (`Pools.UpdateIdempotentIff`, `PoolTheorems.DuplicateShiftsIff`, input `OnlyZoneIsTheAwayZone`). The copy of a built-in
  pool is hit in the same way (`AutoMode.UpdatedCopyShadowsIff`, input `CopyIsEmptied`). A restore still gives back what
  the pool admitted.
- Which refused patches break the round trip of one update and one restore for a known zone: `Pools.RoundTripIff` for
  pools with a zone requirement (input `RefusedAnnotationLosesZone`), `Pools.RoundTripAddedIff` for pools without. A pool
  that carries an annotation but never listed the zone gains it (input `StaleAnnotationAddsZone`).
- If all in-progress handlers of a shift are done before its first terminal one starts, and every call is accepted, a
  shift away from a known zone can be taken back. Of an unknown zone the update takes out the empty name while the restore
  puts back the raw ID, so it depends on whether the empty name is listed (`Pools.ShiftRecoversIff` for one pool,
  `WholeRuns.ShiftRecoversPoolIff` for the concurrent system, input `UnknownZoneIsNotTakenBack`).
- Nothing in the code makes a terminal handler wait for the in-progress ones (`app/main.go:419`). When they overlap, or
  calls are refused, the last patches that the cluster accepted decide (`Overlaps.LastPatchesDecideIff`): the zone list of
  a settled pool that lists the zone is back exactly if the last spec patch was not an update's, and the pool is settled
  exactly if the last annotation patch was not (`Overlaps.OverlapRecoversIff`). The zone is lost for good, whatever still arrives about it, exactly if the last spec
  patch is an update's and the last annotation patch is not (`Overlaps.LosesForGoodIff`). An in-progress handler that
  comes late does that to any such pool, if it is the cluster's only one, with every call accepted
  (`Overlaps.LateUpdateLosesZone`).
- Overlapping shifts of different known zones share one annotation: whichever shift ends last loses its zone
  (`Pools.OverlapRoundTripIff` for pools with a zone requirement, input `OverlapLosesZone`; `Pools.OverlapAddedIff` for
  pools without, input `OverlapLosesAddedZone`).
- An update sends the disruption settings along through structs that know only the node count of a budget; a budget's
  schedule, duration and reasons are dropped and never come back (`Pools.SettingsRoundTripIff`, input `ScheduleIsLost`).
- A built-in pool is out of reach of every run unless it carries an annotation and a zone requirement
  (`AutoTheorems.EveryRunKeepsBuiltInPoolIff`, which also constructs the run that changes such a pool).
- Unprotecting a node undoes protecting it only if nobody had cordoned or annotated it before
  (`NodePasses.ProtectionRoundTripIff`, `Schedules.SchedulesRoundTripIff`, input `CordonIsLost`); untainting undoes
  tainting only if the node had no zonal-shift taint before (`NodePasses.TaintRoundTripIff`, input `TaintIsLost`).
- Event handler and initialiser make different things of a claim without labels, which only the initialiser stores, and
  of an empty topology label (`Informer.ReadersAgreeIff`, inputs `Informer.UnlabelledNodeStays` and `EmptyTopologyLabel`).
- For a populated claim, one in which both find the same zone, the store keeps a node whose claim is gone exactly when
  some step of the run has stranded it: the informer missed the deletion, or the initialiser added the node from its old
  list after the deletion had been handled
  (`Informer.StoreHoldsIff`, inputs `Informer.MissedNodeStays` and `Informer.StaleNodeStays`).

## Where the code and its documentation differ

The model follows the code.

- `README.md:4-5` says the annotation stores the zone name. The code stores the event's zone ID, and a restore does not
  read the value: it appends the zone of its own event (`app/main.go:1511-1518`).
- `README.md:10` says original settings are restored. Order and multiplicity of the zone list are not, a pool that had
  no zone requirement keeps one, and budgets lose everything but their node count; what does come back are the admitted
  zones.
- `app/main.go:1223` and `app/main.go:1315` say the annotation follows a successful requirements patch. It is sent
  whether or not that patch succeeded.
- `README.md:87-90` says a completed shift looks for nodes carrying the do-not-disrupt mark. The code unprotects every
  tracked node of the zone.
- `README.md:115` says taints are applied in batches. The taint passes are plain loops.

## Model

| member | source | states |
|---|---|---|
| `Batches.Partition` | app/pkg/utils/batch.go:28-49 | the slices concatenate to the input, none is empty, all but the last hold five items, the last at most five, and there are as many as the ceiling division by five announces |
| `Batches.PartitionUnique` | app/pkg/utils/batch.go:41-49 | any cut with those properties has that many batches, and its b-th batch is the in-bounds slice with the clamped end: the spawn loop has no choice |
| `Batches.Drain` | app/pkg/utils/batch.go:103-112 | nil exactly when no queued error is non-nil, otherwise the oldest non-nil one |
| `BatchRunner.ConcurrencyBound` | app/pkg/utils/batch.go:52-99 | in every reachable state the tokens taken equal the workers between acquire and release, at most 20, and bound the workers inside `processFn`; all are back when the wait counter is zero |
| `BatchRunner.SendsNeverBlock` | app/pkg/utils/batch.go:35-100 | every worker about to send finds the channel open and with room, so the full-channel branch is dead and nothing is sent after close; the queue holds one non-nil error per worker that sent |
| `BatchRunner.NeverStuck` | app/pkg/utils/batch.go:38-109 | in every reachable state before the return, some goroutine can move without waiting for a cancellation |
| `BatchRunner.EveryRunEnds` | app/pkg/utils/batch.go:38-109 | no interleaving is longer than 11 steps per batch plus 4, by a measure every step lowers |
| `BatchRunner.ReturnValue` | app/pkg/utils/batch.go:74-112 | nil exactly when `processFn` ran once on every batch and always answered nil; any other result is an answer of some call, or the context's error from a worker that was never called |
| `BatchRunner.NilMeansEveryItemOnce` | app/pkg/utils/batch.go:48-112 | after a nil return the items handed out, over all calls in whatever order, are the input items with the same multiplicities |
| `BatchRunner.DrainReturnsFirst` | app/pkg/utils/batch.go:98-112 | once the channel is closed the caller returns the error at its head, nil if there is none, whatever still happens |
| `BatchRunner.NoCallAfterCancel` | app/pkg/utils/batch.go:56-82 | from a cancelled state no run starts another batch |
| `BatchRunner.CancelledBeforeCall` | app/pkg/utils/batch.go:56-82 | with items and a context cancelled beforehand, `processFn` is never called and the context's error is returned |
| `Pools.UpdatedZonesKeepAwayIff` | app/main.go:684-730 | the zones to go to contain the away zone exactly when it is listed and is unknown or alone; they are empty only if the cluster has none |
| `Pools.UpdatedZonesIs` | app/main.go:684-730 | in terms of the mapping's entries: all cluster zones for an ID that has none, or if there is no other zone; otherwise the cluster zones but the entry's, each as often as listed |
| `Pools.EntryIsShifted` | app/main.go:500-512 | for an ID in the mapping: an update makes a pool admit what it did minus the entry's zone, or the cluster's other zones, and marks it with the ID; a restore appends the entry's zone |
| `Pools.UpdateShiftsAwayIff` | app/main.go:1153-1178 | the exact condition under which an update makes a pool with a zone requirement admit what it did, minus the away zone |
| `Pools.UpdateAddsZonesIff` | app/main.go:1259-1270 | the exact condition under which a pool without zone requirement comes to admit the cluster's other zones |
| `Pools.UpdateIdempotentIff` | app/main.go:1153-1270 | the exact condition under which a second update changes nothing, for every pool and configuration: the pool has a zone requirement, or the zones to go to do not contain the away zone |
| `Pools.RoundTripIff` | app/main.go:1205-1249 | for each of the sixteen outcomes of the four patches, exactly when update and restore return the zone list of a pool with a zone requirement as a set |
| `Pools.RoundTripAddedIff` | app/main.go:1259-1341 | the same for a pool without one: exactly when it comes to admit all the cluster's zones again |
| `Pools.ShiftAndRestore` | app/main.go:1509-1562 | for every known zone, and an unknown one where recoverable: a pool updated and restored any number of times admits the original zones, has no annotation, and has its other requirements unchanged |
| `Pools.ShiftRecoversIff` | app/main.go:1372-1375 | exactly when no outcome of the updates and restores can fail to give a settled pool back what it admitted |
| `Pools.SettingsRoundTripIff` | app/main.go:1186-1209 | for each of the sixteen outcomes of the four patches, exactly when the disruption settings are as before |
| `Pools.SettingsTakenOver` | app/main.go:1186-1195 | after an update was sent, every consolidation setting that was there is there unchanged, and every budget has its node count, in order |
| `Pools.OverlapRoundTripIff` | app/main.go:1511-1518 | for two overlapping shifts of known zones ended in either order, exactly when the zone list of a pool with a zone requirement comes back |
| `Pools.OverlapAddedIff` | app/main.go:1259-1341 | the same for a pool without one: exactly when it comes to admit all the cluster's zones again |
| `PoolHandlers.StepProjects` | app/main.go:1142-1343 | every step of any number of handlers on the whole cluster is, for each pool that is only changed in place, one step of a system with that pool alone |
| `PoolHandlers.EventsAre` | app/main.go:437-469 | the three types that shift and the six that restore, by their names, and the metadata's zone winning over the detail's (lines 772-775) |
| `PoolTheorems.EveryRunKeepsOtherRequirements` | app/main.go:1153-1209 | under any events, overlaps and refusals: only copies in auto mode come and go, and of a plain pool only the values of the first zone requirement (or one appended requirement), the annotation, and the trimming of the disruption settings ever change |
| `AutoTheorems.EveryRunKeepsBuiltInPoolIff` | app/main.go:883-1140 | exactly when a built-in pool is the same after every run in auto mode, under any events, overlaps and refusals |
| `PoolTheorems.EveryPhaseCanEnd` | app/main.go:419-469 | handlers never block each other: any interleaving of deliveries of one event, however far it has got, can be continued until every handler is done |
| `PoolTheorems.DuplicateShifts` | app/main.go:1142-1343 | any interleaving of any number of handlers for one in-progress event leaves every plain pool exactly as one uninterrupted update, or as two where a second one still changes something |
| `PoolTheorems.DuplicateShiftsIff` | app/main.go:723-726 | for every cluster and every plain pool in it: exactly when all interleavings of duplicates leave that pool as a single delivery does |
| `PoolTheorems.DeliverOnce` | app/main.go:437-469 | the concurrent system contains the handlers' loops: one more delivery can run uninterrupted, and then does to every plain pool what the loops do |
| `PoolTheorems.DuplicateRestores` | app/main.go:1509-1569 | any interleaving of k handlers for one terminal event: annotation gone, zone appended between 1 and k times; pools without annotation or zone requirement untouched |
| `PoolTheorems.RestoredAdmitsAsOnce` | app/main.go:1514-1562 | however often the zone was appended, the pool admits what a single restore makes it admit |
| `AutoMode.FreshCopyShadows` | app/main.go:907-931 | the copy of a built-in pool admits exactly the original's zones that lie among the zones to go to |
| `AutoMode.FreshCopyIsCopyOf` | app/main.go:890-972 | the copy has every requirement of the original in its place and unchanged, one zone requirement after them, the original's consolidation settings, first budget, node class and, for `system`, taints, and weight 50 |
| `AutoMode.UpdatedCopyIsCopyOf` | app/main.go:993-1069 | after a repeated event the same holds but for the values of the first zone requirement |
| `AutoMode.UpdatedCopyShadowsIff` | app/main.go:993-1069 | exactly when updating the copy in place later (a repeated event) leaves it admitting those zones |
| `AutoMode.ShiftedShadows` | app/main.go:883-979 | in every shifted state the built-in pools are as before and each has its copy: with all its requirements and settings in that sense, and admitting its zones among those to go to |
| `AutoTheorems.AutoDuplicateShifts` | app/main.go:874-1140 | for every zone and cluster, any interleaving of auto-mode handlers for one in-progress event reaches the shifted state: same built-in pools, one copy each if there are zones to go to, others as after one or two updates |
| `AutoTheorems.AutoDuplicateRestores` | app/main.go:1426-1506 | any interleaving of auto-mode handlers for the terminal event removes every copy, keeps the original names, and restores the other pools |
| `WholeRuns.ShiftRecoversPoolIff` | app/main.go:1142-1569 | for every cluster and every settled plain pool in it: exactly when no shift can fail to give the pool back, over all duplicates and interleavings of its in-progress handlers and, these being done, of its terminal ones, with accepted calls |
| `WholeRuns.LoopsAvoidZone` | app/main.go:874-1343 | while a shift away from a zone in the mapping lasts, the handlers' loops, in either mode, keep every plain pool out of that zone and change nothing else about where its nodes may be |
| `WholeRuns.PhaseAvoidsZone` | app/main.go:419-469 | and so does every interleaving of the in-progress handlers |
| `Overlaps.EveryRunKeepsOtherZones` | app/main.go:1142-1569 | under any events, overlaps and refusals, in every plain pool: a zone that no event is about is admitted at the end exactly if it was at the start, the pool without zone requirement being compared on the cluster's zones |
| `Overlaps.LastPatchesDecideIff` | app/main.go:419-469 | for every run about one known zone, handlers of both kinds overlapping, patches and list calls refused: the annotation that results, and exactly when a plain pool, with or without a zone requirement, lists or admits what it did, in terms of the last patches accepted |
| `Overlaps.OverlapRecoversIff` | app/main.go:419-469 | for a settled pool that lists the zone: its zone list is back exactly if the last spec patch accepted is not an update's, and it is settled exactly if the last annotation patch accepted is not |
| `Overlaps.LosesForGoodIff` | app/main.go:419-469 | exactly when such a run loses the zone so that no later run about the zone brings it back |
| `Overlaps.LateUpdateLosesZone` | app/main.go:419-469 | for every settled pool that lists a known zone there is such a run on the cluster with this one pool, with every call accepted and every handler done: a second in-progress handler crosses the terminal one |
| `WholeRuns.WholeRunRestores` | app/main.go:437-469 | in both modes, over any sequence of non-overlapping shifts (every known zone qualifies) with any duplicates and interleavings, the cluster ends with its original pool names, built-in pools unchanged, and every other pool settled and admitting the zones it admitted at the start; a pool without zone requirement is compared on the cluster's zones |
| `WholeRuns.UninterruptedShift` | app/main.go:874-1569 | the same for the handlers' loops run one after the other: what `HandleEvent` makes of the pools for an in-progress and then a terminal event, in either mode |
| `PoolClient.GetUpdatedZones` | app/main.go:684-730 | the filtering loop computes `UpdatedZones`, with both fall-backs to all cluster zones |
| `PoolClient.FilterZones` | app/main.go:1163-1170 | the loop drops every mention of the away zone and keeps every other value in order, as often as listed |
| `PoolClient.EventHandler.UpdateInPlace` | app/main.go:1151-1342 | the loop over a pool's requirements with its two patches, the first carrying the trimmed disruption settings, is `UpdateOne` on that pool and nothing on the others |
| `PoolClient.EventHandler.RestoreInPlace` | app/main.go:1510-1567 | likewise `RestoreOne` |
| `PoolClient.EventHandler.CreateCopy` | app/main.go:884-979 | unless it exists already or is refused, the copy appears under the name with `-kss`: all requirements as they were, the zones to go to after them, and the settings of the original |
| `PoolClient.EventHandler.TaintFor` | app/main.go:981-989 | after a copy the zone's tracked nodes get one taint pass, unless the do-not-disrupt feature is on, the zone is unknown or there is no node controller |
| `PoolClient.EventHandler.UpdateKarpenterNodePool` | app/main.go:770-1345 | the handler of an in-progress event, in either mode and under any failing calls: what becomes of the pools, and of the nodes by the protect pass or the taint passes |
| `PoolClient.EventHandler.UpdatePools` | app/main.go:1142-1343 | the standard-mode loop updates each pool once from the snapshot, and none if there are no zones |
| `PoolClient.EventHandler.AutoUpdatePools` | app/main.go:874-1140 | the auto-mode loop is `AutoUpdate` on the pools, copies for built-in pools and updates for the others, and one taint pass per built-in pool on the nodes |
| `PoolClient.EventHandler.RestoreKarpenterNodePool` | app/main.go:1348-1571 | the handler of a terminal event, in either mode and under any failing calls: what becomes of the pools, and of the nodes by the unprotect or the untaint pass |
| `PoolClient.EventHandler.RestorePools` | app/main.go:1507-1569 | the standard-mode loop restores each annotated pool once |
| `PoolClient.EventHandler.AutoRestorePools` | app/main.go:1436-1506 | the auto-mode loop is `AutoRestore`: copies deleted, annotated pools restored |
| `PoolClient.RefusedCallsAre` | app/main.go:1205-1249 | of the loops in either mode: a refused spec patch leaves requirements and settings, a refused annotation patch the annotation, a refused deletion the copy, and nothing else |
| `PoolClient.EventHandler.HandleEvent` | app/main.go:437-469 | each of the nine event types does to pools and nodes what its handler does, any other type nothing; node by node: no node outside the zone is changed, and with no trouble every node of it is protected or, with a built-in pool, tainted, and by a terminal event has lost that |
| `NodeStores.NodeStore.GetNodesByAZ` | app/pkg/models/node.go:44-66 | for a zone, every answer is a node of it and every tracked node of it is answered; for the empty zone all nodes; each once and as stored |
| `NodeStores.NodeStore.GetAllNodes` | app/pkg/models/node.go:69-71 | the answer holds every tracked node once |
| `NodeControllers.NodeClaimController.ProcessNodeClaim` | app/pkg/controller/controller.go:40-94 | an incomplete object changes nothing; otherwise exactly the node reported is removed, or stored under the topology label unless empty, then the legacy label, then none |
| `NodeControllers.NodeClaimController.InitializeStore` | app/pkg/controller/controller.go:172-201 | afterwards a name is tracked exactly if it was or some listed claim reports it, under the zone of the last claim to report it; other entries are as they were |
| `NodeControllers.AddedAllIs` | app/pkg/controller/controller.go:172-201 | the law behind it, by induction over the list |
| `NodeControllers.InitialiserRuns` | app/pkg/controller/controller.go:172-201 | that loop is the initialiser's part in the race of `Informer`, run to its end |
| `NodeControllers.NodeClaimController.AnnotateNode` | app/pkg/controller/controller.go:265-281 | success exactly if the node exists and neither call fails, and then it carries the annotation with value `true`; nothing else changes |
| `NodeControllers.NodeClaimController.CordonNode` | app/pkg/controller/controller.go:284-297 | likewise, and then it is unschedulable |
| `NodeControllers.NodeClaimController.RemoveAnnotation` | app/pkg/controller/controller.go:345-371 | likewise without the annotation; a node that has none needs no Update |
| `NodeControllers.NodeClaimController.UncordonNode` | app/pkg/controller/controller.go:374-393 | likewise schedulable; a node that is needs no Update |
| `NodeControllers.NodeClaimController.ProtectBatch` | app/pkg/controller/controller.go:233-261 | each node of the batch gets the annotation and, only if that went through, the cordon; an error on one node does not stop the others |
| `NodeControllers.NodeClaimController.UnprotectBatch` | app/pkg/controller/controller.go:313-341 | likewise for removing both |
| `NodeControllers.NodeClaimController.AnnotateAndCordonNodes` | app/pkg/controller/controller.go:220-262 | the batches processed concurrently, for every scheduler and any failures: a tracked node of the zone is unschedulable exactly if it was or none of its four calls fails, and annotated exactly if it was or its first two go through; every other node is unchanged; the error about an empty zone is returned exactly when there are no nodes, otherwise the runner's result, which is nil |
| `NodeControllers.NodeClaimController.RemoveProtectionFromNodes` | app/pkg/controller/controller.go:300-342 | likewise for unprotecting; with no failure every tracked node of the zone is schedulable and not annotated |
| `NodeControllers.NodeClaimController.TaintNodesInAZ` | app/pkg/controller/controller.go:400-445 | a tracked node of the zone whose two calls go through and that lacks the shift key gets one taint with that key, the zone as value and effect NoExecute, after its others; every other node is unchanged |
| `NodeControllers.NodeClaimController.RemoveTaintFromNodes` | app/pkg/controller/controller.go:448-487 | a tracked node of the zone carries the shift key afterwards exactly if it did and a call failed; every other node is unchanged |
| `NodeControllers.HasTaint` | app/pkg/controller/controller.go:421-427 | the scan finds the key exactly when some taint carries it |
| `NodeControllers.StripTaint` | app/pkg/controller/controller.go:468-474 | the rebuild keeps the taints under other keys, in order |
| `NodePasses.TaintPassesOnlyTaint` | app/pkg/controller/controller.go:409-443 | any number of taint passes with any failures changes no node outside the zone and nothing but the shift taint inside |
| `NodePasses.TaintPassesMark` | app/pkg/controller/controller.go:409-443 | after any number of taint passes with any failures a node of the zone is tainted exactly if it was or some pass had both calls go through; then exactly one taint was added, with key, zone and effect NoExecute, at the end |
| `NodePasses.UntaintNodeIs` | app/pkg/controller/controller.go:457-485 | an untaint pass: the shift key is gone exactly if both calls go through, every other taint is there as often as before |
| `NodePasses.ProtectPassesMark` | app/pkg/controller/controller.go:233-297 | after any number of protect passes with any failures a node of the zone is unschedulable exactly if it was or some pass had none of its four calls fail, and annotated exactly if it was or some pass had the first two go through; its taints are as before |
| `NodePasses.UnprotectNodeIs` | app/pkg/controller/controller.go:313-393 | an unprotect pass, exactly, under any failures |
| `NodePasses.TaintRoundTripIff` | app/pkg/controller/controller.go:400-487 | after them one successful untaint pass returns a node of the zone exactly when it carried no shift taint at the start; nodes outside are never touched |
| `NodePasses.ProtectionRoundTripIff` | app/pkg/controller/controller.go:220-393 | the same for protection: after any number of failing protect passes and one successful unprotect pass a node of the zone is back exactly when it was schedulable and not annotated |
| `EventNodes.EventNodesRoundTripIff` | app/main.go:799-823 | over a whole shift, with the feature on or off and in either mode, any number of failing in-progress deliveries and one successful terminal one: exactly when a node is as it was |
| `EventNodes.UpdateNodesIs` | app/main.go:799-823 | for every node and any failures, the exact outcome of an in-progress event: which nodes are concerned, and whether each is cordoned, annotated or tainted (lines 981-989) |
| `EventNodes.RestoreNodesIs` | app/main.go:1371-1432 | the same for a terminal event |
| `EventNodes.EventsSpareOtherZones` | app/main.go:799-989 | no number of events about a known zone, with any failures, changes a node that is tracked under another zone or not at all |
| `Schedules.EveryScheduleEndsAlike` | app/pkg/controller/controller.go:220-297 | with the failures fixed, every interleaving of the workers of an uncancelled pass that reaches its end returns nil and leaves the nodes as one sequential pass does |
| `Schedules.EveryScheduleEnds` | app/pkg/controller/controller.go:220-297 | no such interleaving is stuck before the end, and none takes more than 11 steps per batch and 4 per node, plus 4 |
| `Schedules.Execute` | app/pkg/controller/controller.go:233-261 | the runner over a node pass, from call to return, under an arbitrary scheduler: it terminates, returns nil, and the nodes are as one sequential pass leaves them |
| `Schedules.SchedulesRoundTripIff` | app/pkg/controller/controller.go:220-393 | protect under one schedule, unprotect under another and in another order: exactly when a node of the zone is back as it was, and that no other node is touched |
| `Informer.ReadersAgreeIff` | app/pkg/controller/controller.go:72-86 | exactly when the event handler and the initialiser (lines 178-194) make the same of a claim: it has no node name, or it has labels and these are not an empty topology label beside a non-empty legacy one |
| `Informer.StoreIsComplete` | app/pkg/controller/controller.go:110-207 | for every interleaving of events, deliveries and the initialiser, once all events are delivered each live populated claim is in the store under its zone |
| `Informer.StoreHoldsIff` | app/pkg/controller/controller.go:110-207 | for every such interleaving, once all events are delivered, the exact content of the store for the node name of a populated claim: it is there if and only if the claim is live and carries it, or a step of the run has stranded it, and nothing repairs that |
| `Informer.StaleNodeStays` | app/pkg/controller/controller.go:161-202 | for every populated claim, the run in which it is deleted between the list call and the add, and its node stays |
| `Informer.MissedNodeStays` | app/pkg/controller/controller.go:42-46 | for every populated claim, the run in which the informer misses its deletion and gets a tombstone, and its node stays |
| `Informer.UnlabelledNodeStays` | app/pkg/controller/controller.go:72-76 | for every claim with a node name that the event handler drops, the run in which the initialiser stores it, its delete event is dropped too, and its node stays under no zone |

## Left out

- SQS polling, JSON decoding, leader election, cluster configuration, CRD detection, EC2 and EKS calls: the zone
  mapping, the cluster zones and the mode are fixed inputs, and an event may arrive any number of times.
- Pool fields other than requirements, the disruption settings, the away-zones annotation, weight, taints and node
  class. A requirement is its key, operator and values; the patches replace the whole array from structs that hold no
  more, so any other member of a requirement (`minValues`) is lost, which the model does not show.
- How the cluster validates pools. A patch may be refused for any reason; an accepted empty `In` list admits no zone.
- Operators other than those about membership and presence: `Gt` and `Lt` compare numbers and admit no zone name.
- Resource versions: an update rejected as conflicting is one of the failing calls.
- Writers to pools or nodes other than this controller, and Karpenter's reaction to what it writes.
- Handlers overlapping in their node passes: protecting against unprotecting the same nodes at the same time. The
  handlers' loops include the node passes, the concurrent system of `PoolHandlers` does not; a node pass touches no pool.
- Overlapping shifts of different zones in the concurrent system: `Pools.OverlapRoundTripIff` and `Pools.OverlapAddedIff`
  decide two shifts whose four handlers do not interleave; of all other overlaps of different zones the model says what
  becomes of the zones they are not about (`Overlaps.EveryRunKeepsOtherZones`) and of the other requirements.
- `processFn` that never returns, and panics inside it. The final context check of a worker and the start of
  `processFn` are one step.
- BatchRunner.NeverStuck: says that some step is possible, not that the Go scheduler takes it.
- NodeControllers.NodeClaimController.AnnotateAndCordonNodes: runs with a context that is never cancelled, which is the
  one the handlers pass; `BatchRunner` has the theorems about cancellation.
- NodeControllers.NodeClaimController.RemoveProtectionFromNodes: likewise.
- Informer resynchronisation and the initialiser's back-off times: a failed list call may be repeated any number of
  times, or given up.
- Informer.StoreHoldsIff: is about a node name that only ever belongs to one claim, which keeps it, with labels and a
  fixed zone. Two claims reporting one node overwrite each other; for a claim without labels see `UnlabelledNodeStays`.
- PoolTheorems.DuplicateShifts: assumes that the cluster accepts the calls of the phase; refusals are covered by
  `Overlaps.LastPatchesDecideIff`.
- WholeRuns.WholeRunRestores: assumes accepted calls, and that the in-progress handlers of a shift are done before its
  terminal ones start; without that `Overlaps.LosesForGoodIff` says what is lost.
- Logging, marshalling errors, and the SNS handler that `app/main_test.go` refers to and `app/main.go` does not contain.
- `app/pkg/client`, the CDK stacks and the YAML manifests: wrappers and configuration.
