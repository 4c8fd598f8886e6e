# Verification of the edge-manager's distributed proof driver

The edge-manager turns one proof request into a tree of jobs spread over GPU workers: app proofs
of the segments of an execution, leaf proofs over batches of app proofs, layers of internal proofs
over those, and for EVM proofs one last step. Results come back in any order and are handled
concurrently. This project models that driver in Dafny and proves that, whatever the order and the
interleaving, each node of the tree is built exactly once from the right children, nothing is lost
or dispatched twice, the proof never gets stuck, and it ends with the artifact that a sequential
fold of the segments would give.

## How it is built

| files | what they hold |
|---|---|
| `Arithmetic`, `Recursion` | the loops of `proof_state/recursion.rs` and their closed forms |
| `Protocol` | requests, results and roles; a proof payload records how it was assembled |
| `TreePlan` | the intended tree, level by level, independent of the driver: widths, child ranges, segment ranges, the sequential fold |
| `PriorityQueue` | the pending queue as an object, against a stable sequence in service order, against a bag of arrivals |
| `ProofDriver`, `DriverRefinement` | each result handler as a function on the proof state; each refines one step of the plan |
| `ResultRules` | when a result fails the proof, is refused, is ignored or repeats another, for every state |
| `ProofStateObject` | the proof state as the object the handlers update in place, proved against `ProofDriver` |
| `DriverAlone` | what the driver asks for before it knows the count, and what the tail trigger makes up for |
| `Scheduler`, `SchedulerFacts`, `SlotAccounting`, `SchedulerObject` | the per-proof scheduler: functions, when work is handed out and what every operation keeps, what each result frees, and the object in place |
| `Manager` | the composed system as a machine over events; receiving a result is three separately locked phases, and phases of different results interleave freely |
| `ManagerCounting`, `ManagerInvariant`, `ReceivePhase`, `ReceiveEvents`, `DispatchPhases`, `AccountPhaseProof`, `InvariantHolds` | the invariant of the machine and its proof, phase by phase |
| `Safety`, `Liveness`, `Termination`, `EvmIsolation`, `DeferralBytes`, `Sealing`, `QueueOrder`, `LeafPacking`, `Placement`, `Endings` | the results about every run |
| `Dispatching` | exactly when an event dispatches work, in any state and once a proof is failing |
| `WholeCalls` | a call of `proof_result` from start to end: what it leaves behind, and that it is a run of the machine |
| `Draining` | the drain of a failing proof, exactly |
| `ManagerObject` | `proof_result` and its neighbours over the two shared objects |
| `Registry` | worker registration, readiness, and the partition of segments |
| `DeferralMerkle` | authentication paths in the memory Merkle tree, over an abstract hash |
| `Assumptions` | where the manager's guarantees fail outside the assumptions below, and exactly when |

A level of the plan is numbered from the app proofs (level 0) through the leaves (1) and internal
layer `l` (level `l + 2`) to the EVM step, one above the top. `Run(u, events)` is the state after
any sequence of events; an event that cannot happen is skipped, so a statement about `Run(u, events)`
for all `events` is a statement about every reachable state.

The invariant `Inv` ties together the tree, the scheduler and everything in flight: each node above
the app proofs is unasked or in exactly one place (a handler's hand, the queue, a worker, the tree);
a worker's slots are exactly its shard marker while it owes app proofs, its running jobs, and its
received results that are not yet accounted for; until the scheduler knows the segment count no
recursion job has been dispatched.

## What the model assumes

- `leaf_arity >= 1` and `internal_arity >= 2`. Configuration accepts an internal arity of 1
  (`crates/edge-manager/src/config.rs:239`), for which the layer loop does not end on two or more
  leaves: `LayerLoopTerminatesIff`.
- At least one STARK-capable worker, whose ids come before those of the dedicated EVM workers (what
  a ready registry gives: `ReadyRegistryGivesSetup`), and for an EVM proof one EVM-capable worker.
- App results arrive for segments below the count from the worker that owns them; a worker returns
  the fold of what it was sent, with the layer and range it was sent; each result is delivered once
  (workers post without retry); there is one ExecuteE2 result per proof. `Assumptions` shows that
  the scheduler's slot counts and the driver's progress depend on these, and exactly when.
- Errors, aborts, timeouts, cancellations, a cost over the limit, and failures to save the artifact
  may happen at any point. The progress results are about runs without them.
- The program has at least one segment (a count of zero fails the proof, which the driver models but
  the composed runs do not deliver). Numbers are unbounded.

Where comments and code disagree the model follows the code: a leaf may join a worker by a path that
does not look for a running EVM step (`crates/edge-manager/src/scheduler.rs:200-208`, against the
comment at 138-140), which is why `EvmWorkerIsAlone` is proved over whole runs; a worker may hold
more than the two proofs that the comment at `crates/edge-manager/src/scheduler.rs:72` mentions; and
new work does start for a failing proof, which `crates/edge-manager/src/scheduler.rs:708-709` rules
out: drain-mode completion keeps to the rule, but the phases of a result received before the failure
never look at the status (`crates/edge-manager/src/handlers.rs:1318-1337` and `1362-1376`).
`FollowUpDispatchedWhileFailing` and `QueuedWorkPulledWhileFailing` are two such runs, and
`DispatchesOnceFailingIff` says exactly when it happens. And a failing proof is said to end as soon as
its last busy worker reports (`crates/edge-manager/src/handlers.rs:1257-1262`), but the result that
fails a proof is not accounted for (`1318-1337`), so a worker that reports a failure keeps its slot:
`LastReportDoesNotEnd` is such a call, and `FailureWaitsIffHeld` and `DrainsIffAllAnswered` say exactly when a drain ends before its deadline.

## Model

| member | source | states |
|---|---|---|
| Recursion.NumInternalLayersForLeafCount | crates/edge-manager/src/proof_state/recursion.rs:12-23 | the loop ends for fan-in at least 2 and returns the least number of layers `k` with `a^k >= n`, 1 for at most one leaf |
| Recursion.LayersAboveLeast | crates/edge-manager/src/proof_state/recursion.rs:16-22 | the layer count is least: `a^(k-1) < n <= a^k` |
| Recursion.LayerLoopTerminatesIff | crates/edge-manager/src/proof_state/recursion.rs:18-21 | with fan-in `a >= 1` the loop reaches one node if and only if `a >= 2` or there is at most one leaf |
| Recursion.NumProofsAtInternalLayer | crates/edge-manager/src/proof_state/recursion.rs:27-40 | the loop computes the layer's width, `ceil(n / a^(layer+1))` inside the tree and 0 above it |
| Recursion.ProofsAtLayerClosedForm | crates/edge-manager/src/proof_state/recursion.rs:27-40 | repeated rounding up equals one rounding by the power |
| Recursion.SegmentStartOfInternalProof | crates/edge-manager/src/proof_state/recursion.rs:45-56 | the loop computes `idx * a^(layer+1) * leaf_arity` |
| Recursion.SegmentStartToInternalIdx | crates/edge-manager/src/proof_state/recursion.rs:59-70 | the loop divides by the same span |
| Recursion.SegmentStartRoundTrip | crates/edge-manager/src/proof_state/recursion.rs:45-70 | index to segment start and back is the identity |
| TreePlan.InternalLayerWidth | crates/edge-manager/src/proof_state/recursion.rs:27-40 | the plan's width of an internal layer is the driver's count, with a wrap where that is 0 |
| TreePlan.ParentInRange | crates/edge-manager/src/proof_state/result_handler.rs:714-715 | every node has one parent, and is in that parent's child range |
| TreePlan.ChildrenTile | crates/edge-manager/src/proof_state/result_handler.rs:796-811 | children's segment ranges tile their parent's, with ragged tails |
| TreePlan.NodeHasSegments | crates/edge-manager/src/proof_state/recursion.rs:45-56 | a node exists exactly when its first segment does, and its range stays below the count |
| TreePlan.ProofCoversSegments | crates/edge-manager/src/proof_state/result_handler.rs:694-845 | the fold of any node flattens to its segments in order, each once |
| TreePlan.RootCoversAllSegments | crates/edge-manager/src/proof_state/state.rs:387-397 | the root's fold flattens to `0 .. segments - 1` |
| TreePlan.InternalJobsBound | crates/edge-manager/src/proof_state/result_handler.rs:931-941 | a tree has at most `(F + 1) + (n - 1) / (a - 1)` internal nodes |
| PriorityQueue.PushRefines | crates/edge-manager/src/priority_queue.rs:50-73 | a push keeps the queue in service order (leaves, internal layers upwards with 9 and above alike, the EVM step) and each class in arrival order |
| PriorityQueue.PopRefines | crates/edge-manager/src/priority_queue.rs:76-103 | a pop returns, of the arrivals that no other comes before in service order, the oldest, and removes only it |
| PriorityQueue.ClassIsServiceOrder | crates/edge-manager/src/priority_queue.rs:50-103 | the class numbers order requests as served: a leaf before all, internal by layer up to 9, the EVM step after all |
| PriorityQueue.InsertIsFifoPerClass | crates/edge-manager/src/priority_queue.rs:50-73 | queueing touches the back of one class and no other |
| PriorityQueue.PriorityWorkQueue.ContentsSorted | crates/edge-manager/src/priority_queue.rs:13-45 | the buffers, read in the order in which they are popped, are always in service order |
| PriorityQueue.PriorityWorkQueue.Push | crates/edge-manager/src/priority_queue.rs:50-73 | the twelve buffers together hold the old contents with the item inserted stably, and stay in service order |
| PriorityQueue.PriorityWorkQueue.Pop | crates/edge-manager/src/priority_queue.rs:76-103 | takes the head of the whole contents, which no other item comes before; none exactly when empty |
| PriorityQueue.PriorityWorkQueue.Requeue | crates/edge-manager/src/priority_queue.rs:106-108 | equals a fresh push to the back of the item's class |
| PriorityQueue.PriorityWorkQueue.IsEmpty | crates/edge-manager/src/priority_queue.rs:111-115 | true exactly when nothing is held in any buffer |
| DriverRefinement.AppResultRefines | crates/edge-manager/src/proof_state/result_handler.rs:286-422 | a new app proof is stored, and its leaf batch asked for exactly when that completes it, with the batch's proofs in order |
| DriverRefinement.LeafResultRefines | crates/edge-manager/src/proof_state/result_handler.rs:543-649 | a new leaf is stored, and its layer-0 node asked for exactly when its group is complete |
| DriverRefinement.InternalResultRefines | crates/edge-manager/src/proof_state/result_handler.rs:651-846 | a new internal proof is stored, and its parent asked for exactly when due: next layer, wrap of a one-layer tree, or the EVM step |
| DriverRefinement.EvmResultRefines | crates/edge-manager/src/proof_state/result_handler.rs:848-883 | the EVM result completes the tree and asks for nothing |
| DriverRefinement.ExecuteE2Refines | crates/edge-manager/src/proof_state/result_handler.rs:168-226 | learning the count changes nothing stored and asks for the partial last batch exactly when its apps are in |
| DriverRefinement.TailMatchesPlan | crates/edge-manager/src/proof_state/result_handler.rs:895-974 | the tail metadata counts the plan's internal nodes and names its final layer |
| DriverRefinement.TailProofsEmpty | crates/edge-manager/src/proof_state/result_handler.rs:424-541 | with no leaf or internal proof stored the tail trigger asks for nothing |
| DriverAlone.TailProofRefines | crates/edge-manager/src/proof_state/result_handler.rs:424-541 | the trigger asks for the last group of a layer, as exactly its node of the plan, if and only if it is incomplete, its children are in and it is not |
| DriverAlone.TriggerRefines | crates/edge-manager/src/proof_state/result_handler.rs:424-541 | over all layers: one request per due group, from the lowest layer up, and no other |
| DriverAlone.UncountedLeafAsks | crates/edge-manager/src/proof_state/result_handler.rs:594-648 | without the count a leaf asks for its layer-0 node if and only if that is a full group and complete |
| DriverAlone.UncountedInternalAsks | crates/edge-manager/src/proof_state/result_handler.rs:694-845 | without the count an internal proof likewise, never flagged final: the node's own request if and only if it is not the final node |
| DriverRefinement.ReadyAfterStore | crates/edge-manager/src/proof_state/result_handler.rs:594-648 | storing a node makes at most its parent ready, and that one was not ready before |
| ProofDriver.IndexInsideLayer | crates/edge-manager/src/proof_state/result_handler.rs:714-793 | the range check keeps a result's group start inside its layer |
| ProofStateObject.ProofState.HandleProofResultWithEnvelopeOutcome | crates/edge-manager/src/proof_state/result_handler.rs:46-69 | the object ends in the state, and returns the classification, that the driver function gives |
| ProofStateObject.ProofState.HandleProofResult | crates/edge-manager/src/proof_state/result_handler.rs:85-155 | dispatch of one result, on the object |
| ProofStateObject.ProofState.HandleExecuteE2Result | crates/edge-manager/src/proof_state/result_handler.rs:168-226 | the count is set once, a zero count fails the proof, flush then tail requests |
| ProofStateObject.ProofState.FlushPendingLeafBatches | crates/edge-manager/src/proof_state/result_handler.rs:230-284 | the loop finds the partial last batch complete or asks for nothing |
| ProofStateObject.ProofState.HandleAppResult | crates/edge-manager/src/proof_state/result_handler.rs:286-422 | stores, keeps the first merkle bytes, asks for the batch or nothing |
| ProofStateObject.ProofState.TriggerTailProofs | crates/edge-manager/src/proof_state/result_handler.rs:424-541 | the loop over layers collects each incomplete last group whose children are in |
| ProofStateObject.ProofState.HandleLeafResult | crates/edge-manager/src/proof_state/result_handler.rs:543-649 | stores the leaf, asks for its group or nothing |
| ProofStateObject.ProofState.HandleInternalResult | crates/edge-manager/src/proof_state/result_handler.rs:651-846 | stores the proof, with all of the branches for the next request |
| ProofStateObject.ProofState.CollectInternalGroup | crates/edge-manager/src/proof_state/result_handler.rs:796-845 | the loop gathers a group in order with its least start and greatest end, or gives up on the first gap |
| ProofStateObject.ProofState.HandleHalo2Result | crates/edge-manager/src/proof_state/result_handler.rs:848-883 | stores the first EVM artifact; fails the proof on the wrong type or missing bytes |
| ProofStateObject.ProofState.BuildDeferralTailDispatch | crates/edge-manager/src/proof_state/result_handler.rs:895-974 | the loop sums the layers' widths, counting an empty layer as its wrap |
| ProofStateObject.ProofState.IsSealedForResults | crates/edge-manager/src/proof_state/state.rs:294-296 | sealed exactly when not in progress or the artifact is present |
| ProofStateObject.ProofState.IsReadyForFinalization | crates/edge-manager/src/proof_state/state.rs:359-384 | ready exactly when the artifact of the proof's type is present |
| ProofStateObject.ProofState.MarkFailing | crates/edge-manager/src/proof_state/state.rs:310-340 | an unsealed proof becomes Failing with the reason, the error recorded and nothing else changed; a sealed one is untouched |
| ProofStateObject.ProofState.TransitionFailingToFailed | crates/edge-manager/src/proof_state/state.rs:345-350 | Failing becomes Failed with its reason; no effect otherwise |
| ProofStateObject.ProofState.Cancel | crates/edge-manager/src/handlers.rs:1440-1447 | an unsealed proof becomes Canceled and nothing else changes; a sealed one is untouched |
| ProofStateObject.ProofState.Finalize | crates/edge-manager/src/handlers.rs:1522-1558 | completes, or fails on a failed save, only a proof in progress with its artifact |
| Scheduler.FindBestWorkerForLeaf | crates/edge-manager/src/scheduler.rs:172-228 | a free worker if any; else, only below the packing threshold, one with room of minimal load; none only if no worker qualifies |
| Scheduler.LeastLoaded | crates/edge-manager/src/scheduler.rs:197-224 | the earliest packable worker of least key |
| SchedulerFacts.QueuedMeansBusy | crates/edge-manager/src/scheduler.rs:295-336 | work is queued only when some worker is busy |
| SchedulerFacts.HandedOutIff | crates/edge-manager/src/scheduler.rs:122-228 | a request finds a worker if and only if, in roles, slots and the threshold, some worker can take it, and then the first such, unless a leaf joins a busy one |
| SchedulerFacts.AnswerIsRight | crates/edge-manager/src/scheduler.rs:288-337 | so a request is handed out exactly when some worker can take it, and to one that can |
| SchedulerFacts.AssignKeepsWorkers | crates/edge-manager/src/scheduler.rs:309-325 | an assignment keeps the slot rules: exact count within capacity, the marker alone, one internal proof, only EVM steps on a dedicated worker and none on a STARK-only one |
| SchedulerFacts.AssignOrQueueKeeps | crates/edge-manager/src/scheduler.rs:288-337 | keeps the slot rules and the wake-up rule: a non-empty queue has a busy worker |
| SchedulerFacts.TryDequeueWakes | crates/edge-manager/src/scheduler.rs:445-485 | restores the wake-up rule whatever it finds |
| SchedulerFacts.DrainPendingWakes | crates/edge-manager/src/scheduler.rs:495-501 | draining ends, with the wake-up rule, at an empty queue or an item no worker can take |
| SchedulerFacts.DrainStopsAtHead | crates/edge-manager/src/scheduler.rs:495-501 | from a queue in class order, draining ends at an empty queue or at a head that no worker can take |
| QueueOrder.QueueInOrder | crates/edge-manager/src/priority_queue.rs:50-103 | the queue is in class order in every state of every run |
| QueueOrder.DrainInRunStopsAtHead | crates/edge-manager/src/scheduler.rs:495-501 | so in every run, a count that releases a worker drains the queue until it is empty or its head is one that no worker can take |
| SchedulerFacts.TryDequeueConserves | crates/edge-manager/src/scheduler.rs:445-485 | pop and requeue change order, never the multiset |
| SchedulerFacts.HeadGoesBehindOrOut | crates/edge-manager/src/scheduler.rs:445-485 | a head that some worker can take leaves the queue as it was behind it; one that none can take goes to the back of its own class |
| SchedulerFacts.DrainPendingConserves | crates/edge-manager/src/scheduler.rs:495-501 | what was queued is queued or handed out, each item once |
| SchedulerFacts.FreeSlotKeeps | crates/edge-manager/src/scheduler.rs:417-427 | completing a held job removes exactly its slot and keeps the slot rules |
| SchedulerFacts.ReleaseMarkerKeeps | crates/edge-manager/src/scheduler.rs:372-375 | releasing a held marker leaves the worker idle |
| SchedulerFacts.PackingOrder | crates/edge-manager/src/scheduler.rs:209-222 | a less loaded worker is preferred; among equals one on a later internal layer (100 and above alike), any internal layer before an EVM step, that before a leaf |
| SchedulerFacts.DrainedOnlyFrees | crates/edge-manager/src/scheduler.rs:708-729 | drain-mode completion dispatches nothing, adds no slot and touches no other worker |
| SchedulerFacts.StrangerChangesNothing | crates/edge-manager/src/scheduler.rs:345-356 | a result from a worker unknown to the proof changes nothing, live or draining |
| SlotAccounting.DrainedFreesSlot | crates/edge-manager/src/scheduler.rs:708-729 | a late result of a job frees exactly the slot its worker holds for it, and lowers its count by one |
| SlotAccounting.DrainedErrorFreesFirst | crates/edge-manager/src/scheduler.rs:345-428 | a late error frees the first slot of its worker |
| SlotAccounting.DrainedAppCredits | crates/edge-manager/src/scheduler.rs:357-383 | a late app result is credited, and the marker goes exactly when the count is known and the whole shard is in |
| SlotAccounting.LiveIsDrainedThenPull | crates/edge-manager/src/scheduler.rs:431-442 | live accounting frees what a late result would, then pulls one item if and only if that freed a slot |
| SlotAccounting.ReleaseFreesWorker | crates/edge-manager/src/scheduler.rs:745-757 | releasing a worker frees all of its slots, keeps the slot rules and touches nothing else; an unknown one changes nothing |
| SlotAccounting.DrainedIffNoSlots | crates/edge-manager/src/scheduler.rs:763-772 | drained means that no worker holds a slot |
| SchedulerFacts.ShardSize | crates/edge-manager/src/scheduler.rs:260-267 | the closed form is the size of the shard `{s < S : s mod M = w}` |
| SchedulerFacts.DoneIffShardCovered | crates/edge-manager/src/scheduler.rs:250-285 | of any received segments below the total, the count test passes exactly when the whole shard is among them: others do not count |
| SchedulerFacts.CompletedIffWholeShard | crates/edge-manager/src/scheduler.rs:250-285 | of genuine segments, the count test passes exactly when the whole shard is in |
| SchedulerObject.EdgeProofState.constructor | crates/edge-manager/src/scheduler.rs:535-586 | STARK workers start with their marker, dedicated ones idle; the shard count is the number of STARK workers |
| SchedulerObject.EdgeProofState.AssignOrQueue | crates/edge-manager/src/scheduler.rs:288-337 | whole new state and hand-out; under the slot rules it is handed out exactly when some worker can take it, and to one that can |
| SchedulerObject.EdgeProofState.ApplyCompletion | crates/edge-manager/src/scheduler.rs:345-428 | per result kind: the credited or freed worker, and whether a slot was freed; unknown workers change nothing |
| SchedulerObject.EdgeProofState.CompleteWork | crates/edge-manager/src/scheduler.rs:431-442 | completion, then at most one dequeue, only if a slot was freed |
| SchedulerObject.EdgeProofState.TryDequeueWork | crates/edge-manager/src/scheduler.rs:445-485 | hands out the head, or requeues it behind its class |
| SchedulerObject.EdgeProofState.DrainPending | crates/edge-manager/src/scheduler.rs:495-501 | the loop ends, having handed out all that the drain function does, at an empty queue or at a head that no worker can take |
| SchedulerObject.EdgeProofState.SetNumSegments | crates/edge-manager/src/scheduler.rs:605-667 | releases every busy worker that is done and drains if it released any |
| SchedulerObject.EdgeProofState.WorkerDrained | crates/edge-manager/src/scheduler.rs:714-729 | dispatches nothing; the slot of the answered job is freed |
| SchedulerObject.EdgeProofState.ReleaseWorker | crates/edge-manager/src/scheduler.rs:745-757 | clears one worker's slots and no other's |
| SchedulerObject.EdgeProofState.IsFullyDrained | crates/edge-manager/src/scheduler.rs:763-772 | true exactly when no worker has an active proof |
| ReceiveEvents.DeliverAppKeeps | crates/edge-manager/src/handlers.rs:1228-1241 | receiving an app result keeps the whole invariant |
| ReceiveEvents.DeliverJobKeeps | crates/edge-manager/src/handlers.rs:1228-1241 | receiving a leaf, internal or EVM result keeps the whole invariant |
| ReceiveEvents.DeliverCountKeeps | crates/edge-manager/src/handlers.rs:1228-1241 | receiving the count keeps the whole invariant |
| DispatchPhases.GateQueues | crates/edge-manager/src/scheduler.rs:146-155 | before the count is known a follow-up can only queue |
| DispatchPhases.PlaceKeeps | crates/edge-manager/src/handlers.rs:1362-1376 | placing a request in hand, on a worker or in the queue, restores the whole invariant |
| DispatchPhases.DrainKeeps | crates/edge-manager/src/scheduler.rs:495-501 | a drain restores the whole invariant |
| AccountPhaseProof.AccountKeepsSched | crates/edge-manager/src/handlers.rs:1293-1337 | accounting for any unsealed result keeps the whole invariant |
| AccountPhaseProof.CreditedWorker | crates/edge-manager/src/scheduler.rs:357-383 | after crediting an app result the marker is there exactly while the worker owes proofs, and a slot is freed exactly when it goes |
| AccountPhaseProof.CountedWorker | crates/edge-manager/src/scheduler.rs:624-661 | after the count the same holds of every worker |
| InvariantHolds.RunKeepsInv | crates/edge-manager/src/handlers.rs:1183-1379 | every state of every run satisfies the invariant |
| InvariantHolds.SealedAccounted | crates/edge-manager/src/handlers.rs:1341-1352 | the sealing result completes the proof, or fails it if saving failed |
| InvariantHolds.SettledStays | crates/edge-manager/src/handlers.rs:1263-1290 | once not in progress, no event changes the tree, the history or the saved artifact |
| Safety.ArtifactIsSequentialFold | crates/edge-manager/src/proof_state/result_handler.rs:694-845 | in every run the final artifact, and what was saved, is the sequential fold, covering `0 .. segments - 1` in order, each once |
| Safety.OrderIndependence | crates/edge-manager/src/proof_state/result_handler.rs:367-421 | two completed runs agree on the artifact whatever their arrival orders |
| Safety.RequestsFollowPlan | crates/edge-manager/src/proof_state/result_handler.rs:739-780 | every request ever emitted carries its node's own fold; the final flag is on exactly node `(F, 0)` |
| Safety.AskedAtMostOnce | crates/edge-manager/src/proof_state/result_handler.rs:578-592 | no node is asked for twice in any run |
| Safety.AskedExactlyTheTree | crates/edge-manager/src/proof_state/result_handler.rs:543-846 | a completed run asked for every node of the tree once, and nothing else |
| Safety.InternalJobsOfARun | crates/edge-manager/src/proof_state/result_handler.rs:931-941 | at most `(F + 1) + (n - 1) / (a - 1)` internal requests in any run, and in a completed run exactly the tree's internal nodes |
| Safety.TailMetadataMatchesRun | crates/edge-manager/src/proof_state/result_handler.rs:895-974 | `internal_node_idx + 1` is the number of internal requests of the completed run; the layer is the final one |
| ResultRules.ResultFailsIff | crates/edge-manager/src/proof_state/result_handler.rs:85-155 | a result makes the proof failing if and only if it is one of the failing kinds; then the tree is untouched and the proof sealed |
| ResultRules.OutOfRangeIgnored | crates/edge-manager/src/proof_state/result_handler.rs:308-318 | a result outside the known range changes nothing and asks for nothing |
| ResultRules.RepeatAsksNothing | crates/edge-manager/src/proof_state/result_handler.rs:582-592 | a repeated result asks for nothing and stores no new node |
| ResultRules.RepeatReplaces | crates/edge-manager/src/proof_state/result_handler.rs:286-422 | a repeated app, leaf or internal proof replaces the stored one; the first EVM artifact is kept |
| ResultRules.ScanSpansChildren | crates/edge-manager/src/proof_state/result_handler.rs:796-811 | a next request's range is the least start and the greatest end its children reported |
| ResultRules.AboveTopAsksNothing | crates/edge-manager/src/proof_state/result_handler.rs:781-793 | an internal result above the final layer asks for nothing |
| ResultRules.RefusedIff | crates/edge-manager/src/proof_state/result_handler.rs:728-757 | a result is refused with an error if and only if it is a new final internal proof of an EVM run without its hand-off |
| DeferralBytes.ResultsCarryBytes | crates/edge-manager/src/proof_state/result_handler.rs:332-364 | for every state and result: only a newly stored app proof brings merkle bytes, only where none are held, and final requests carry what is held |
| DeferralBytes.RunKeepsBytes | crates/edge-manager/src/proof_state/result_handler.rs:895-974 | in every run the final request carries the bytes the tree ends with: none can arrive after it is built |
| Safety.WorkIsConserved | crates/edge-manager/src/scheduler.rs:307-336 | each asked-for node is in exactly one of: a handler's hand, the queue, a worker, the tree |
| Safety.SchedulerStaysSound | crates/edge-manager/src/scheduler.rs:114-228 | the slot rules and the wake-up rule hold in every live state |
| Placement.JobsRunWhereTheyCan | crates/edge-manager/src/scheduler.rs:122-146 | in every live state each running job is on a worker whose role has the prover for it, and holds a slot there |
| Placement.EnqueueSendsIff | crates/edge-manager/src/scheduler.rs:288-337 | in every live state a follow-up is sent out if and only if some worker can take it, and to one that can; else it is queued |
| Safety.MarkerGoneIffShardDone | crates/edge-manager/src/scheduler.rs:357-383 | a marker is gone if and only if the count is known and the worker's whole shard is in, whichever came last |
| Safety.CountBeforeRecursion | crates/edge-manager/src/scheduler.rs:557-577 | no recursion job runs before the count has reached tree and scheduler; until then each STARK worker holds its marker alone |
| Safety.TailTriggerIsIdle | crates/edge-manager/src/proof_state/result_handler.rs:424-541 | in composed runs the tail trigger asks for nothing |
| Safety.EvmIsAlone | crates/edge-manager/src/proof_state/result_handler.rs:739-756 | once the EVM step is asked for, everything below it is stored and no other request is in hand, queued or running |
| EvmIsolation.EvmWorkerIsAlone | crates/edge-manager/src/scheduler.rs:122-146 | a worker that holds the EVM step holds nothing else, in every run |
| EvmIsolation.OnlyEvmRuns | crates/edge-manager/src/scheduler.rs:122-146 | once the EVM step is asked for, no job of another kind is running on any worker |
| EvmIsolation.OtherSlotsAreReceived | crates/edge-manager/src/scheduler.rs:122-146 | from then on every slot other than the EVM step's and the markers is, one for one, a received result not yet accounted for |
| EvmIsolation.HeldMarkersAreReceived | crates/edge-manager/src/scheduler.rs:357-383 | and a marker is held if and only if one of its worker's app results is received and not yet accounted for |
| EvmIsolation.EvmIsAllThatIsHeld | crates/edge-manager/src/scheduler.rs:122-146 | so once all received results are accounted for, no worker holds anything but the EVM step |
| EvmIsolation.LeafBeforeEvm | crates/edge-manager/src/scheduler.rs:197-208 | while a leaf is still to be placed the EVM step has not been asked for |
| Liveness.DeadlockFreedom | crates/edge-manager/src/handlers.rs:1228-1376 | count known, apps in, nothing mid-flight, not finished: some worker holds an outstanding job |
| Liveness.NeverStuck | crates/edge-manager/src/handlers.rs:1183-1379 | an unfinished proof always has a delivery, an accounting or an enqueue to come |
| Termination.ForwardUsesBudget | crates/edge-manager/src/handlers.rs:1183-1379 | each such event uses up a fixed budget |
| Termination.EveryProductiveRunCompletes | crates/edge-manager/src/handlers.rs:1183-1379 | a run of them has at most `2 S + 2 + 3 N` events, and where it can go no further the proof is completed with the sequential fold |
| Termination.CanStillComplete | crates/edge-manager/src/handlers.rs:1183-1379 | from every reachable state in progress, whatever led there, some such events lead to Completed |
| Termination.SomeRunCompletes | crates/edge-manager/src/handlers.rs:1183-1379 | every proof has a run that completes it |
| LeafPacking.CounterIsHandedOut | crates/edge-manager/src/scheduler.rs:322-324 | in every live state the counter of assigned leaves is the number of leaf requests handed out: those running and those stored |
| LeafPacking.PackingRule | crates/edge-manager/src/scheduler.rs:197-224 | in every live state a leaf joins a busy worker only while fewer than the threshold have been handed out and no STARK worker is free, and then one with room and least load |
| Dispatching.DispatchesIff | crates/edge-manager/src/handlers.rs:1293-1376 | for any state and event: more is running afterwards if and only if a follow-up finds a worker, or a slot handed back finds an assignable head; otherwise nothing new runs |
| Dispatching.EndedProofLeaves | crates/edge-manager/src/handlers.rs:1551-1626 | in every run a completed, failed or canceled proof has left the scheduler |
| Dispatching.DispatchesOnceFailingIff | crates/edge-manager/src/handlers.rs:1318-1376 | out of in-progress, an event dispatches work if and only if the proof is still failing and a phase of an earlier result places a follow-up or hands a slot to the queue's head |
| Dispatching.FollowUpDispatchedWhileFailing | crates/edge-manager/src/handlers.rs:1362-1376 | a run whose follow-up is dispatched after the failure |
| Dispatching.QueuedWorkPulledWhileFailing | crates/edge-manager/src/handlers.rs:1293-1316 | a run whose queued work is dispatched after the failure, by a count received before it |
| Sealing.SealedStaysPut | crates/edge-manager/src/proof_state/state.rs:294-350 | once sealed nothing changes the tree or artifact; results, failures and cancellation change no status |
| Sealing.StatusMovesForward | crates/edge-manager/src/proof_state/state.rs:345-350 | a status other than in-progress lasts, but for Failing becoming Failed with its reason |
| Sealing.CompletedOnlyWithArtifact | crates/edge-manager/src/handlers.rs:1522-1558 | Completed is reached only from in-progress, by finalization, with the artifact and a successful save |
| Endings.FailureRecorded | crates/edge-manager/src/proof_state/state.rs:310-340 | failing an unsealed proof sets Failing with the reason and records step and error; the tree is kept and the proof sealed |
| Endings.ErrorRecorded | crates/edge-manager/src/proof_state/result_handler.rs:85-155 | a worker's error does the same |
| Endings.OnlyErrorsRecord | crates/edge-manager/src/proof_state/result_handler.rs:85-155 | no result but an error touches the recorded error |
| Endings.CancelSeals | crates/edge-manager/src/handlers.rs:1440-1447 | canceling an unsealed proof makes it Canceled, keeps the tree and seals it |
| Endings.AbortFails | crates/edge-manager/src/proof_state/state.rs:310-340 | in any run an abort of an unsealed proof fails it with its reason and leaves jobs and scheduler to the drain |
| Endings.CancelLeaves | crates/edge-manager/src/handlers.rs:1425-1457 | in any run canceling removes the scheduler state, and cancels exactly an unsealed proof |
| Endings.FailedOnlyByDrain | crates/edge-manager/src/handlers.rs:1637-1675 | in any run a failing proof ends, with its own reason, exactly by a drain check that finds the deadline over, the scheduler state gone or no slot counted |
| Endings.EndingsLast | crates/edge-manager/src/proof_state/state.rs:294-350 | once out of in-progress, whatever follows: the status lasts (but for Failing to Failed), and nothing more is stored, asked for or saved |
| Draining.FailureWaitsIffHeld | crates/edge-manager/src/handlers.rs:1318-1337 | a call whose result fails the proof frees no slot, its own worker's included: the proof ends at once if none was held, else waits |
| Draining.LastReportDoesNotEnd | crates/edge-manager/src/handlers.rs:1318-1337 | one worker, one app proof: its report of a failure, the last there can be, does not end the proof |
| Draining.DrainsIffAllAnswered | crates/edge-manager/src/handlers.rs:1257-1275 | late results that answer held slots end a failing proof before its deadline if and only if they answer every held slot |
| Draining.UnansweredSlotHoldsDrain | crates/edge-manager/src/handlers.rs:1257-1275 | one slot left unanswered keeps the proof failing |
| Draining.CountIsAlwaysTold | crates/edge-manager/src/handlers.rs:1293-1316 | the scheduler is told the count even by a result that failed the proof |
| Sealing.StreamsSealOnce | crates/edge-manager/src/proof_state/result_handler.rs:46-69 | in any stream of operations at most one result seals, all later ones are late, and exactly the first late one asks for the notice |
| Sealing.RunsSealOnce | crates/edge-manager/src/proof_state/result_handler.rs:46-69 | the same of any interleaved run, whose tree and sealing flags are those of the stream of its operations |
| Sealing.RunsHaveOneSealer | crates/edge-manager/src/handlers.rs:1341-1352 | so at most one received result goes on to finalization |
| ManagerObject.ProofManager.Receive | crates/edge-manager/src/handlers.rs:1228-1283 | phase 1 on the shared objects is the machine's receive step |
| ManagerObject.ProofManager.Account | crates/edge-manager/src/handlers.rs:1293-1352 | phase 2 is the machine's account step |
| ManagerObject.ProofManager.Enqueue | crates/edge-manager/src/handlers.rs:1362-1376 | phase 3, per follow-up, is the machine's enqueue step |
| ManagerObject.ProofManager.Finish | crates/edge-manager/src/handlers.rs:1522-1558 | only a proof in progress with its artifact changes: it ends Completed, with that artifact saved where saving is configured, or Failed with nothing saved when saving fails |
| ManagerObject.ProofManager.TryFinalizeFailing | crates/edge-manager/src/handlers.rs:1637-1675 | ends a failing proof once drained or expired, and no other |
| ManagerObject.ProofManager.CancelProof | crates/edge-manager/src/handlers.rs:1425-1457 | cancels an unsealed proof and always forgets its scheduler state |
| ManagerObject.ProofManager.ProofResult | crates/edge-manager/src/handlers.rs:1183-1379 | the call from start to end: all of its phases are done, with every follow-up queued or out |
| WholeCalls.CallRunsToEnd | crates/edge-manager/src/handlers.rs:1183-1379 | every call from any state: one handler more, accounted for, with no follow-up in hand, and no other changed; each follow-up queued or on a worker, nothing else added or lost; a proof left failing holds a slot within its deadline |
| WholeCalls.CallIsRun | crates/edge-manager/src/handlers.rs:1183-1379 | an uninterrupted call is a run of the machine, of its own events to the end, so all results about runs apply to it; from a state with nothing mid-flight it leads to another |
| Registry.RegisterBinds | crates/edge-manager/src/worker_registry.rs:77-181 | accepted exactly when the capacities are the deployment's (none at all for a dedicated worker), the id is in range and neither URL nor id is bound elsewhere; then the two are bound to each other and all other bindings kept; a refusal changes nothing |
| Registry.AnyRegistrationsKeepBook | crates/edge-manager/src/worker_registry.rs:114-181 | after any sequence of registrations the two maps are inverse, ids in range and the next id one above the greatest |
| Registry.EdgeWorkerRegistry.Register | crates/edge-manager/src/worker_registry.rs:114-181 | the object's maps and answer after one registration |
| Registry.EdgeWorkerRegistry.ReadyWorkers | crates/edge-manager/src/worker_registry.rs:187-265 | succeeds exactly when every id is registered and no STARK worker is above a dedicated one; lists workers in id order |
| Registry.CountForcesContiguity | crates/edge-manager/src/worker_registry.rs:209-227 | with ids in range, having the expected number of workers is having every id |
| Registry.ReadyMeansPrefix | crates/edge-manager/src/worker_registry.rs:314-322 | when ready, the app-eligible workers are exactly ids `0 .. M - 1` |
| Registry.ShardsSumToTotal | crates/edge-manager/src/scheduler.rs:260-267 | the expected counts sum to the number of segments |
| Registry.ReadyPartitionsSegments | crates/edge-manager/src/worker_registry.rs:304-313 | when ready, each segment has exactly one owner and the shards' sizes sum to the total |
| Registry.ReadyRegistryGivesSetup | crates/edge-manager/src/handlers.rs:729-775 | a ready registry discharges what a started proof assumes of its workers |
| DeferralMerkle.ExtractDeferralAuthPath | crates/edge-worker/src/deferral_merkle.rs:60-77 | the path has the tree's height and folds from node `leaf_idx + 1` to the root |
| DeferralMerkle.PathEntries | crates/edge-worker/src/deferral_merkle.rs:49-59 | the siblings in closed form: `leaf_idx`, then `(leaf_idx >> i) ^ 1`, whatever the depth |
| DeferralMerkle.FinalizeDeferralPath | crates/edge-worker/src/deferral_merkle.rs:91-104 | zeros below the depth, the path above; refused exactly when the depth exceeds the length |
| DeferralMerkle.FinalizedAuthenticates | crates/edge-worker/src/deferral_merkle.rs:79-104 | for every depth `d >= 1` the suffix from `d` folds from node `leaf_idx >> d` to the root |
| DeferralMerkle.FoldBinds | crates/edge-worker/src/deferral_merkle.rs:60-77 | under a collision-free hash a root binds the digest and the whole path |
| DeferralMerkle.Depth0PathsAgree | crates/edge-worker/src/deferral_merkle.rs:157-179 | trees with the same leaves in the aligned address space have paths that agree on its `address_height` entries |
| DeferralMerkle.Depth0DeferralMerkleProofs | crates/edge-worker/src/deferral_merkle.rs:164-179 | both proofs are the full paths: nothing is padded at depth 0 |
| Assumptions.RepeatedAppHarmlessIff | crates/edge-manager/src/scheduler.rs:357-383 | a repeated app result keeps a worker's slot count exact if and only if it still owes segments, holds its marker or is idle |
| Assumptions.SettingCountHarmlessIff | crates/edge-manager/src/scheduler.rs:630-657 | setting the count keeps slot counts exact if and only if each busy worker found done holds its marker |
| Assumptions.RepeatsCanMiscount | crates/edge-manager/src/scheduler.rs:630-657 | a concrete worker that a repeated app result, or a second count, miscounts |
| Assumptions.WrapAskedIffCountKnown | crates/edge-manager/src/proof_state/result_handler.rs:758-778 | in a one-layer tree the driver alone asks for the wrap if and only if it knows the count when the layer-0 proof arrives |
| Assumptions.CountNeverAsksForWrap | crates/edge-manager/src/proof_state/result_handler.rs:424-541 | and the later arrival of the count never makes up for it |
| Assumptions.PairIsCovered | crates/edge-manager/src/proof_state/result_handler.rs:758-778 | such a tree and state exist: two segments, fan-in two, leaf arity one |
| Assumptions.PairJoinAsked | crates/edge-manager/src/proof_state/result_handler.rs:594-648 | two segments, the count not yet known: the second leaf asks for the layer-0 proof |
| Assumptions.PairJoinArrives | crates/edge-manager/src/proof_state/result_handler.rs:694-845 | its result asks for nothing |
| Assumptions.PairWaitsForEver | crates/edge-manager/src/proof_state/result_handler.rs:168-226 | nor does the count after it: nothing is outstanding and the proof is not ready |

## Left out

- HTTP, retries, uploads, input staging and lifecycle reports: dispatching a job makes it outstanding, and a result is an event. A dispatch that gives up is an abort.
- The unconditional status writes of `start_proof` and `abort_proof_with_failure`, and the check in `send_work_with_retry`: an abort here is `mark_failing`, which respects sealing.
- Timing fields, metrics, reports, eviction, and dropping the payload bytes of a finished proof (`compact_completed_state`); `mark_timed_out` differs from `mark_failing` only in its step name, and both are one operation.
- Texts of failure reasons are shortened where the source formats segment numbers or durations into them.
- Drain-by-completion over whole runs of the machine, where stray errors may free slots out of turn: it is exact for whole calls (`DrainsIffAllAnswered`), and the deadline may always come.
- Releasing a worker together with a dispatch that gives up: `ReleaseFreesWorker` speaks of the scheduler alone.
- The lock is taken again between the sealed check and finalization, before a late result is drained, and between ending a proof and removing it from the scheduler; each pair is one step here.
- Several proofs side by side: they share no state but the worker fleet, so one proof is modelled.
- Real provers, hashes, codecs and configuration parsing; the tree's leaf label and its alignment are parameters of the Merkle statements.
- The registry's shared maps and its atomic id counter are one object updated by one call at a time.
- Machine integers: overflow, saturation at the top, and the sentinel `usize::MAX` of the segment scan, which starts from the first child instead.
- Bytes of a second terminal app result: the first to arrive is kept, so for those bytes alone the final request depends on arrival order.
