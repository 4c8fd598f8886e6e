/** What each result does to its worker's slots: which slot it frees, in drain mode and live, and what
  * releasing a worker and the drain check mean. */
module SlotAccounting {
  import opened Protocol
  import opened Scheduler
  import opened SchedulerFacts

  /** The slot of the job that a result answers. */
  function SlotOf(r: ProofResult): Option<ActiveProof> {
    match r
    case LeafResult(_) => Some(ActiveProof(LeafProve, None))
    case InternalResult(x) => Some(ActiveProof(InternalProve, Some(x.layerIdx)))
    case EvmResult(_) => Some(ActiveProof(EvmProve, None))
    case _ => None
  }

  /** Only worker `w` has changed, and only in its slots. */
  ghost predicate OnlySlotsOf(s: Sched, s': Sched, w: nat)
    requires w < |s.workers|
  {
    && |s'.workers| == |s.workers|
    && s' == s.(workers := s'.workers)
    && (forall i :: 0 <= i < |s.workers| && i != w ==> s'.workers[i] == s.workers[i])
    && s'.workers[w] == s.workers[w].(activeCount := s'.workers[w].activeCount, active := s'.workers[w].active)
  }

  lemma DrainedOn(s: Sched, w: nat, r: ProofResult)
    requires WorkersOk(s) && s.numWorkers > 0 && w < |s.workers|
    ensures WorkerDrained(s, w, r) == s.(workers := s.workers[w := CompleteOn(s.workers[w], r, s.numWorkers, s.numSegments).0])
  {
    FindIdOf(s, w);
    hide FindId, CompleteOn, WorkersOk;
  }

  /** A late result of a job frees the slot that its worker holds for it, and nothing else. */
  lemma DrainedFreesSlot(s: Sched, w: nat, r: ProofResult)
    requires WorkersOk(s) && s.numWorkers > 0 && w < |s.workers|
    requires SlotOf(r).Some? && SlotOf(r).value in s.workers[w].active
    ensures var s' := WorkerDrained(s, w, r);
            && WorkersOk(s') && OnlySlotsOf(s, s', w)
            && s'.workers[w].activeCount == s.workers[w].activeCount - 1
            && multiset(s'.workers[w].active) == multiset(s.workers[w].active) - multiset{SlotOf(r).value}
  {
    DrainedOn(s, w, r);
    FreeSlotKeeps(s.workers[w], SlotOf(r).value, s.maxLeafProvers);
    hide RemoveFirst, WorkerDrained, WorkerOk;
    assert s.workers[w].active != [];
    assert WorkerOk(s.workers[w], s.maxLeafProvers);
    assert s.workers[w].activeCount > 0 by { CountIsLength(s.workers[w], s.maxLeafProvers); }
  }

  lemma CountIsLength(w: Worker, maxLeafProvers: nat)
    requires WorkerOk(w, maxLeafProvers)
    ensures w.activeCount == |w.active|
  {
  }

  /** A late error frees the worker's first slot, if it has one. */
  lemma DrainedErrorFreesFirst(s: Sched, w: nat, step: string, error: string)
    requires WorkersOk(s) && s.numWorkers > 0 && w < |s.workers|
    ensures var s' := WorkerDrained(s, w, ErrorResult(step, error));
            && OnlySlotsOf(s, s', w)
            && s'.workers[w].active == (if s.workers[w].active == [] then [] else s.workers[w].active[1..])
            && s'.workers[w].activeCount == |s'.workers[w].active|
  {
    DrainedOn(s, w, ErrorResult(step, error));
    assert WorkerOk(s.workers[w], s.maxLeafProvers);
    hide WorkerDrained;
  }

  /** A late app result is credited, and the marker goes exactly when the count is known and the whole
    * shard is in. */
  lemma DrainedAppCredits(s: Sched, w: nat, app: AppState)
    requires WorkersOk(s) && w < |s.workers| && w < s.numWorkers && MARKER in s.workers[w].active
    requires s.numSegments.Some? ==> s.workers[w].completed + {app.segmentIdx} <= Shard(w, s.numSegments.value, s.numWorkers)
    ensures var w' := WorkerDrained(s, w, AppResult(app)).workers[w];
            var done := s.numSegments.Some? && w'.completed == Shard(w, s.numSegments.value, s.numWorkers);
            && w'.completed == s.workers[w].completed + {app.segmentIdx}
            && w'.active == (if done then [] else [MARKER]) && w'.activeCount == |w'.active|
  {
    DrainedOn(s, w, AppResult(app));
    assert WorkerOk(s.workers[w], s.maxLeafProvers);
    var credited := s.workers[w].(completed := s.workers[w].completed + {app.segmentIdx});
    if s.numSegments.Some? {
      CompletedIffWholeShard(w, credited.completed, s.numWorkers, s.numSegments.value);
    }
    ReleaseMarkerKeeps(credited, s.maxLeafProvers);
    hide OwnedBy, ExpectedSegments, Shard, ReleaseMarker, WorkerDrained;
  }

  /** A worker that never got its work is released: all of its slots are free, and nothing else changes. */
  lemma ReleaseFreesWorker(s: Sched, w: nat)
    requires WorkersOk(s)
    ensures var s' := ReleaseWorker(s, w);
            && WorkersOk(s')
            && (w >= |s.workers| ==> s' == s)
            && (w < |s.workers| ==> OnlySlotsOf(s, s', w) && s'.workers[w].active == [] && s'.workers[w].activeCount == 0)
  {
    if w < |s.workers| {
      FindIdOf(s, w);
      assert WorkerOk(s.workers[w], s.maxLeafProvers);
    }
  }

  /** The drain check looks at the slots: drained means that no worker holds one. */
  lemma DrainedIffNoSlots(s: Sched)
    requires WorkersOk(s)
    ensures IsFullyDrained(s) <==> forall w :: 0 <= w < |s.workers| ==> s.workers[w].active == []
  {
    assert forall w :: 0 <= w < |s.workers| ==> WorkerOk(s.workers[w], s.maxLeafProvers);
    hide WorkerOk;
    forall w | 0 <= w < |s.workers| ensures s.workers[w].activeCount == |s.workers[w].active| {
      CountIsLength(s.workers[w], s.maxLeafProvers);
    }
  }

  /** What a worker's results answer to: the slot of its job, or its marker. */
  ghost predicate IsOwed(w: Worker, r: ProofResult) {
    match r
    case ErrorResult(_, _) => w.active != []
    case ExecuteE2Result(_, _) => true
    case AppResult(_) => MARKER in w.active
    case _ => SlotOf(r).value in w.active
  }

  /** Live accounting frees what a late result would, and then pulls one item from the queue if and
    * only if that freed a slot. */
  lemma LiveIsDrainedThenPull(s: Sched, w: nat, r: ProofResult)
    requires WorkersOk(s) && s.numWorkers > 0 && w < |s.workers| && IsOwed(s.workers[w], r)
    ensures var d := WorkerDrained(s, w, r);
            CompleteWork(s, w, r) == if d.workers[w].activeCount < s.workers[w].activeCount then TryDequeue(d) else (d, None)
  {
    DrainedOn(s, w, r);
    FindIdOf(s, w);
    assert WorkerOk(s.workers[w], s.maxLeafProvers);
    hide TryDequeue, FindId, CompletedAllSegments, RemoveFirst, WithoutMarkers, WorkersOk;
  }
}
