/** Work assignment for one proof (`scheduler.rs`), as functions on values.
  * `SchedulerObject` is the in-place version proved against these. */
module Scheduler {
  import opened Arithmetic
  import opened Protocol
  import opened PriorityQueue

  datatype ActiveProof = ActiveProof(step: Step, layerIdx: Option<nat>)

  const MARKER: ActiveProof := ActiveProof(ShardedAppProve, None)

  datatype Worker = Worker(id: nat, role: Role, activeCount: nat, active: seq<ActiveProof>, completed: set<nat>) {
    predicate Runs(step: Step) {
      exists i :: 0 <= i < |active| && active[i].step == step
    }
  }

  datatype Assigned = Assigned(workerId: nat, request: Request)

  datatype Sched = Sched(
    workers: seq<Worker>,
    pending: seq<Request>,
    numSegments: Option<nat>,
    numWorkers: nat,
    assignedLeaves: nat,
    leafPackThreshold: nat,
    maxLeafProvers: nat)

  function Slot(r: Request): ActiveProof {
    ActiveProof(r.Step(), r.LayerIdx())
  }

  // ---- choosing a worker ----

  predicate CanAcceptWork(w: Worker, step: Step, maxLeafProvers: nat) {
    if step.EvmProve? then w.role.RunsEvmProve() && w.activeCount == 0
    else
      && !w.role.EvmDedicated?
      && !w.Runs(EvmProve)
      && !w.Runs(ShardedAppProve)
      && match step
         case LeafProve => w.activeCount < maxLeafProvers
         case InternalProve => w.activeCount == 0
         case _ => false
  }

  predicate FreeForLeaf(w: Worker) {
    w.role.RunsStarkProving() && w.activeCount == 0 && !w.Runs(ShardedAppProve)
  }

  predicate PackableForLeaf(w: Worker, maxLeafProvers: nat) {
    w.role.RunsStarkProving() && w.activeCount < maxLeafProvers && !w.Runs(ShardedAppProve)
  }

  /** Fewest active proofs first; among equals, one whose first proof is a late internal layer. */
  function PackingKey(w: Worker): nat {
    var bias :=
      if w.active == [] then 1500
      else match w.active[0].step
           case InternalProve => Max(1000 - (if w.active[0].layerIdx.Some? then w.active[0].layerIdx.value else 0) * 10, 0)
           case LeafProve => 2000
           case _ => 1500;
    w.activeCount * 10000 + bias
  }

  function FirstWorker(workers: seq<Worker>, p: Worker -> bool): (r: Option<nat>)
    ensures r.Some? ==> r.value < |workers| && p(workers[r.value]) && forall j :: 0 <= j < r.value ==> !p(workers[j])
    ensures r.None? ==> forall j :: 0 <= j < |workers| ==> !p(workers[j])
  {
    if workers == [] then None
    else if p(workers[0]) then Some(0)
    else match FirstWorker(workers[1..], p)
         case None => assert forall j :: 1 <= j < |workers| ==> workers[j] == workers[1..][j - 1]; None
         case Some(i) => assert forall j :: 1 <= j < |workers| ==> workers[j] == workers[1..][j - 1]; Some(i + 1)
  }

  /** The packable worker of least key among the first `n`; the earliest of equals. */
  function LeastLoaded(workers: seq<Worker>, maxLeafProvers: nat, n: nat): (r: Option<nat>)
    requires n <= |workers|
    ensures r.None? ==> forall j :: 0 <= j < n ==> !PackableForLeaf(workers[j], maxLeafProvers)
    ensures r.Some? ==> r.value < n && PackableForLeaf(workers[r.value], maxLeafProvers)
    ensures r.Some? ==> forall j :: 0 <= j < n && PackableForLeaf(workers[j], maxLeafProvers) ==>
                          PackingKey(workers[r.value]) <= PackingKey(workers[j])
    ensures r.Some? ==> forall j :: 0 <= j < r.value && PackableForLeaf(workers[j], maxLeafProvers) ==>
                          PackingKey(workers[r.value]) < PackingKey(workers[j])
  {
    if n == 0 then None
    else
      var best := LeastLoaded(workers, maxLeafProvers, n - 1);
      if !PackableForLeaf(workers[n - 1], maxLeafProvers) then best
      else if best.Some? && PackingKey(workers[best.value]) <= PackingKey(workers[n - 1]) then best
      else Some(n - 1)
  }

  /** A leaf goes to a free worker if there is one. It joins a busy worker only while fewer
    * than the threshold have been assigned, and then one of minimal load. */
  function FindBestWorkerForLeaf(workers: seq<Worker>, assignedLeaves: nat, leafPackThreshold: nat, maxLeafProvers: nat): (r: Option<nat>)
    ensures r.Some? ==> r.value < |workers| && workers[r.value].role.RunsStarkProving() && !workers[r.value].Runs(ShardedAppProve)
    ensures r.Some? && workers[r.value].activeCount > 0 ==>
              && assignedLeaves < leafPackThreshold
              && workers[r.value].activeCount < maxLeafProvers
              && (forall j :: 0 <= j < |workers| ==> !FreeForLeaf(workers[j]))
              && (forall j :: 0 <= j < |workers| && PackableForLeaf(workers[j], maxLeafProvers) ==>
                    workers[r.value].activeCount <= workers[j].activeCount)
    ensures r.None? ==> forall j :: 0 <= j < |workers| ==> !FreeForLeaf(workers[j])
    ensures r.None? && assignedLeaves < leafPackThreshold ==> forall j :: 0 <= j < |workers| ==> !PackableForLeaf(workers[j], maxLeafProvers)
  {
    var free := FirstWorker(workers, FreeForLeaf);
    if free.Some? then free
    else if assignedLeaves < leafPackThreshold then LeastLoaded(workers, maxLeafProvers, |workers|)
    else None
  }

  function FindWorker(s: Sched, step: Step): (r: Option<nat>)
    ensures r.Some? ==> r.value < |s.workers|
  {
    if step.LeafProve? then FindBestWorkerForLeaf(s.workers, s.assignedLeaves, s.leafPackThreshold, s.maxLeafProvers)
    else FirstWorker(s.workers, (w: Worker) => CanAcceptWork(w, step, s.maxLeafProvers))
  }

  // ---- assignment ----

  function Assign(s: Sched, i: nat, r: Request): Sched
    requires i < |s.workers|
  {
    var w := s.workers[i];
    s.(workers := s.workers[i := w.(activeCount := w.activeCount + 1, active := w.active + [Slot(r)])],
       assignedLeaves := s.assignedLeaves + if r.LeafRequest? then 1 else 0)
  }

  function AssignOrQueue(s: Sched, r: Request): (Sched, Option<Assigned>) {
    match FindWorker(s, r.Step())
    case Some(i) => (Assign(s, i, r), Some(Assigned(s.workers[i].id, r)))
    case None => (s.(pending := Insert(s.pending, r)), None)
  }

  function TryDequeue(s: Sched): (Sched, Option<Assigned>) {
    if s.pending == [] then (s, None)
    else
      var r, rest := s.pending[0], s.(pending := s.pending[1..]);
      match FindWorker(rest, r.Step())
      case Some(i) => (Assign(rest, i, r), Some(Assigned(s.workers[i].id, r)))
      case None => (rest.(pending := Insert(rest.pending, r)), None)
  }

  function DrainPending(s: Sched): (Sched, seq<Assigned>)
    decreases |s.pending|
  {
    var (s', a) := TryDequeue(s);
    if a.None? then (s', [])
    else var (s'', more) := DrainPending(s'); (s'', [a.value] + more)
  }

  // ---- completion ----

  /** Segments of `0 .. total - 1` owned by worker `id`, by the closed form. */
  function ExpectedSegments(id: nat, total: nat, numWorkers: nat): nat
    requires numWorkers > 0
  {
    if id < total then CeilDiv(total - id, numWorkers) else 0
  }

  function OwnedBy(completed: set<nat>, id: nat, numWorkers: nat): set<nat>
    requires numWorkers > 0
  {
    set x | x in completed && x % numWorkers == id
  }

  predicate CompletedAllSegments(id: nat, completed: set<nat>, numWorkers: nat, total: Option<nat>)
    requires numWorkers > 0
  {
    total.Some? && |OwnedBy(completed, id, numWorkers)| >= ExpectedSegments(id, total.value, numWorkers)
  }

  function WithoutMarkers(active: seq<ActiveProof>): seq<ActiveProof> {
    if active == [] then []
    else (if active[0].step.ShardedAppProve? then [] else [active[0]]) + WithoutMarkers(active[1..])
  }

  function ReleaseMarker(w: Worker): Worker {
    w.(activeCount := Max(w.activeCount - 1, 0), active := WithoutMarkers(w.active))
  }

  function RemoveFirst(active: seq<ActiveProof>, step: Step): seq<ActiveProof> {
    if active == [] then [] else if active[0].step == step then active[1..] else [active[0]] + RemoveFirst(active[1..], step)
  }

  function FreeSlot(w: Worker, step: Step): Worker {
    w.(activeCount := Max(w.activeCount - 1, 0), active := RemoveFirst(w.active, step))
  }

  /** What one result does to its worker, and whether it freed a slot. */
  function CompleteOn(w: Worker, r: ProofResult, numWorkers: nat, total: Option<nat>): (Worker, bool)
    requires numWorkers > 0
  {
    match r
    case AppResult(app) =>
      var w' := w.(completed := w.completed + {app.segmentIdx});
      if CompletedAllSegments(w.id, w'.completed, numWorkers, total) then (ReleaseMarker(w'), true) else (w', false)
    case ExecuteE2Result(_, _) => (w, false)
    case LeafResult(_) => (FreeSlot(w, LeafProve), true)
    case InternalResult(_) => (FreeSlot(w, InternalProve), true)
    case EvmResult(_) => (FreeSlot(w, EvmProve), true)
    case ErrorResult(_, _) =>
      (if w.active == [] then w else w.(activeCount := Max(w.activeCount - 1, 0), active := w.active[1..]), true)
  }

  datatype Completion = Unregistered | Applied(sched: Sched, freed: bool)

  function FindId(workers: seq<Worker>, id: nat): Option<nat> {
    FirstWorker(workers, (w: Worker) => w.id == id)
  }

  function ApplyCompletion(s: Sched, id: nat, r: ProofResult): Completion
    requires s.numWorkers > 0
  {
    match FindId(s.workers, id)
    case None => Unregistered
    case Some(i) =>
      var (w, freed) := CompleteOn(s.workers[i], r, s.numWorkers, s.numSegments);
      Applied(s.(workers := s.workers[i := w]), freed)
  }

  /** Live completion: account for the result, then hand out at most one queued item. */
  function CompleteWork(s: Sched, id: nat, r: ProofResult): (Sched, Option<Assigned>)
    requires s.numWorkers > 0
  {
    match ApplyCompletion(s, id, r)
    case Unregistered => (s, None)
    case Applied(s', freed) => if freed then TryDequeue(s') else (s', None)
  }

  /** Drain-mode completion: frees the slot, never dispatches. */
  function WorkerDrained(s: Sched, id: nat, r: ProofResult): Sched
    requires s.numWorkers > 0
  {
    match ApplyCompletion(s, id, r)
    case Unregistered => s
    case Applied(s', _) => s'
  }

  predicate ReleasedByCount(w: Worker, numSegments: nat, numWorkers: nat)
    requires numWorkers > 0
  {
    && w.activeCount > 0
    && (ExpectedSegments(w.id, numSegments, numWorkers) == 0 || CompletedAllSegments(w.id, w.completed, numWorkers, Some(numSegments)))
  }

  function ReleaseAllDone(workers: seq<Worker>, numSegments: nat, numWorkers: nat): seq<Worker>
    requires numWorkers > 0
  {
    seq(|workers|, i requires 0 <= i < |workers| =>
      if ReleasedByCount(workers[i], numSegments, numWorkers) then ReleaseMarker(workers[i]) else workers[i])
  }

  predicate SomeReleased(workers: seq<Worker>, numSegments: nat, numWorkers: nat)
    requires numWorkers > 0
  {
    exists i :: 0 <= i < |workers| && ReleasedByCount(workers[i], numSegments, numWorkers)
  }

  function SetNumSegments(s: Sched, n: nat): (Sched, seq<Assigned>)
    requires s.numWorkers > 0
  {
    var s' := s.(numSegments := Some(n), workers := ReleaseAllDone(s.workers, n, s.numWorkers));
    if SomeReleased(s.workers, n, s.numWorkers) then DrainPending(s') else (s', [])
  }

  function ReleaseWorker(s: Sched, id: nat): Sched {
    match FindId(s.workers, id)
    case None => s
    case Some(i) => s.(workers := s.workers[i := s.workers[i].(activeCount := 0, active := [])])
  }

  predicate IsFullyDrained(s: Sched) {
    forall i :: 0 <= i < |s.workers| ==> s.workers[i].activeCount == 0
  }

  // ---- initial state ----

  function StarkCount(roles: seq<(nat, Role)>): nat {
    if roles == [] then 0 else StarkCount(roles[..|roles| - 1]) + if roles[|roles| - 1].1.RunsStarkProving() then 1 else 0
  }

  function InitWorker(id: nat, role: Role): Worker {
    if role.RunsStarkProving() then Worker(id, role, 1, [MARKER], {}) else Worker(id, role, 0, [], {})
  }

  function InitProof(ready: seq<(nat, Role)>, leafPackThreshold: nat, maxLeafProvers: nat): Sched {
    Sched(seq(|ready|, i requires 0 <= i < |ready| => InitWorker(ready[i].0, ready[i].1)),
          [], None, StarkCount(ready), 0, leafPackThreshold, maxLeafProvers)
  }
}
