/** What every scheduler operation keeps: the slot rules of each worker, and that queued
  * work never waits on an idle fleet. */
module SchedulerFacts {
  import opened Arithmetic
  import opened Protocol
  import opened PriorityQueue
  import opened Scheduler

  // ---- the slot rules ----

  ghost predicate SlotOk(x: ActiveProof) {
    match x.step
    case InternalProve => x.layerIdx.Some?
    case _ => x.layerIdx.None? && (x.step.LeafProve? || x.step.EvmProve? || x.step.ShardedAppProve?)
  }

  ghost predicate OneInternal(active: seq<ActiveProof>) {
    forall i, j :: 0 <= i < j < |active| ==> !(active[i].step.InternalProve? && active[j].step.InternalProve?)
  }

  /** A worker's slots: counted exactly, at most `max(1, max_leaf_provers)`, the app-prove
    * marker alone, one internal proof at most, only EVM steps on a dedicated worker and none on a
    * STARK-only one. */
  ghost predicate WorkerOk(w: Worker, maxLeafProvers: nat) {
    && w.activeCount == |w.active| <= Max(1, maxLeafProvers)
    && (forall x :: x in w.active ==> SlotOk(x))
    && (MARKER in w.active ==> w.active == [MARKER])
    && (w.role.EvmDedicated? ==> forall x :: x in w.active ==> x.step.EvmProve?)
    && (w.role.StarkOnly? ==> forall x :: x in w.active ==> !x.step.EvmProve?)
    && OneInternal(w.active)
  }

  ghost predicate WorkersOk(s: Sched) {
    && |s.workers| > 0 && s.workers[0].role.RunsStarkProving()
    && forall i :: 0 <= i < |s.workers| ==> s.workers[i].id == i && WorkerOk(s.workers[i], s.maxLeafProvers)
  }

  ghost predicate Busy(s: Sched) {
    exists i :: 0 <= i < |s.workers| && s.workers[i].active != []
  }

  /** No lost wakeup: completions drive the queue, so a non-empty queue needs one to come. */
  ghost predicate WillWake(s: Sched) {
    s.pending != [] ==> Busy(s)
  }

  ghost predicate Serviceable(s: Sched, r: Request) {
    r.EvmRequest? ==> exists i :: 0 <= i < |s.workers| && s.workers[i].role.RunsEvmProve()
  }

  ghost predicate AllServiceable(s: Sched) {
    forall r :: r in s.pending ==> Serviceable(s, r)
  }

  ghost function SlotCount(s: Sched, w: nat, x: ActiveProof): nat
    requires w < |s.workers|
  {
    multiset(s.workers[w].active)[x]
  }

  ghost predicate SameFleet(s: Sched, s': Sched) {
    && |s'.workers| == |s.workers|
    && (forall i :: 0 <= i < |s.workers| ==>
          s'.workers[i].id == s.workers[i].id && s'.workers[i].role == s.workers[i].role && s'.workers[i].completed == s.workers[i].completed)
    && s'.numSegments == s.numSegments && s'.numWorkers == s.numWorkers && s'.maxLeafProvers == s.maxLeafProvers
  }

  // ---- choosing and assigning ----

  /** Work is queued only when some worker is busy. */
  lemma QueuedMeansBusy(s: Sched, r: Request)
    requires WorkersOk(s) && Serviceable(s, r) && FindWorker(s, r.Step()).None?
    ensures Busy(s)
  {
    if r.EvmRequest? {
      var i :| 0 <= i < |s.workers| && s.workers[i].role.RunsEvmProve();
      assert !CanAcceptWork(s.workers[i], EvmProve, s.maxLeafProvers);
    } else if r.InternalRequest? {
      assert !CanAcceptWork(s.workers[0], InternalProve, s.maxLeafProvers);
    } else {
      assert !FreeForLeaf(s.workers[0]);
    }
  }

  lemma FoundWorkerFits(s: Sched, r: Request)
    requires WorkersOk(s) && FindWorker(s, r.Step()).Some?
    ensures var w := s.workers[FindWorker(s, r.Step()).value];
            && MARKER !in w.active && |w.active| + 1 <= Max(1, s.maxLeafProvers)
            && (!r.LeafRequest? ==> w.active == [])
            && (if r.EvmRequest? then !w.role.StarkOnly? else !w.role.EvmDedicated?)
  {
    var w := s.workers[FindWorker(s, r.Step()).value];
    if !r.LeafRequest? {
      assert CanAcceptWork(w, r.Step(), s.maxLeafProvers);
    }
  }

  // ---- when a request is handed out ----

  ghost predicate NobodyFree(s: Sched) {
    forall j :: 0 <= j < |s.workers| && !s.workers[j].role.EvmDedicated? ==> s.workers[j].active != []
  }

  /** In roles, slots and the threshold: an EVM step goes to an idle worker with an EVM prover, an
    * internal proof to an idle STARK worker, and a leaf to an idle STARK worker or, while nobody is
    * free and few leaves have been handed out, to a busy one with room that owes no app proofs. */
  ghost predicate CanTake(s: Sched, i: nat, r: Request)
    requires i < |s.workers|
  {
    var w := s.workers[i];
    match r
    case EvmRequest(_, _, _) => !w.role.StarkOnly? && w.active == []
    case InternalRequest(_, _, _, _, _, _, _) => !w.role.EvmDedicated? && w.active == []
    case LeafRequest(_, _, _) =>
      !w.role.EvmDedicated? &&
      (w.active == [] ||
       (NobodyFree(s) && s.assignedLeaves < s.leafPackThreshold && |w.active| < s.maxLeafProvers && MARKER !in w.active))
  }

  lemma MarkerRuns(w: Worker, maxLeafProvers: nat)
    requires WorkerOk(w, maxLeafProvers)
    ensures w.Runs(ShardedAppProve) <==> MARKER in w.active
  {
    if w.Runs(ShardedAppProve) {
      var i :| 0 <= i < |w.active| && w.active[i].step == ShardedAppProve;
      assert w.active[i] in w.active && w.active[i] == MARKER;
    }
  }

  lemma FreeIffIdle(s: Sched, i: nat)
    requires WorkersOk(s) && i < |s.workers|
    ensures FreeForLeaf(s.workers[i]) <==> !s.workers[i].role.EvmDedicated? && s.workers[i].active == []
    ensures PackableForLeaf(s.workers[i], s.maxLeafProvers) <==>
              !s.workers[i].role.EvmDedicated? && |s.workers[i].active| < s.maxLeafProvers && MARKER !in s.workers[i].active
  {
    MarkerRuns(s.workers[i], s.maxLeafProvers);
  }

  lemma AcceptsIffIdle(s: Sched, i: nat, r: Request)
    requires WorkersOk(s) && i < |s.workers| && !r.LeafRequest?
    ensures CanAcceptWork(s.workers[i], r.Step(), s.maxLeafProvers) <==> CanTake(s, i, r)
  {
  }

  lemma LeafTakenIff(s: Sched, r: Request)
    requires WorkersOk(s) && r.LeafRequest?
    ensures var found := FindWorker(s, LeafProve);
            && (found.Some? ==> CanTake(s, found.value, r))
            && (found.None? ==> forall i :: 0 <= i < |s.workers| ==> !CanTake(s, i, r))
  {
    hide FreeForLeaf, PackableForLeaf, PackingKey, WorkersOk;
    forall i | 0 <= i < |s.workers|
      ensures FreeForLeaf(s.workers[i]) <==> !s.workers[i].role.EvmDedicated? && s.workers[i].active == []
      ensures PackableForLeaf(s.workers[i], s.maxLeafProvers) <==>
                !s.workers[i].role.EvmDedicated? && |s.workers[i].active| < s.maxLeafProvers && MARKER !in s.workers[i].active
    {
      FreeIffIdle(s, i);
    }
  }

  /** A request is handed out if and only if some worker can take it, and then to one that can: the
    * first of them, unless a leaf joins a busy worker. */
  lemma HandedOutIff(s: Sched, r: Request)
    requires WorkersOk(s)
    ensures var found := FindWorker(s, r.Step());
            && (found.Some? <==> exists i :: 0 <= i < |s.workers| && CanTake(s, i, r))
            && (found.Some? ==> CanTake(s, found.value, r))
            && (found.Some? && s.workers[found.value].active == [] ==> forall j :: 0 <= j < found.value ==> !CanTake(s, j, r))
  {
    var found := FindWorker(s, r.Step());
    if r.LeafRequest? {
      LeafTakenIff(s, r);
      if found.Some? && s.workers[found.value].active == [] {
        FirstFree(s, r);
      }
    } else {
      forall i | 0 <= i < |s.workers| ensures CanAcceptWork(s.workers[i], r.Step(), s.maxLeafProvers) <==> CanTake(s, i, r) {
        AcceptsIffIdle(s, i, r);
      }
    }
    hide CanTake, CanAcceptWork, FindBestWorkerForLeaf, WorkersOk;
  }

  /** The same of what `AssignOrQueue` answers, which names the worker by its id. */
  lemma AnswerIsRight(s: Sched, r: Request)
    requires WorkersOk(s)
    ensures var a := AssignOrQueue(s, r).1;
            && (a.Some? <==> exists w :: 0 <= w < |s.workers| && CanTake(s, w, r))
            && (a.Some? ==> a.value.request == r && a.value.workerId < |s.workers| && CanTake(s, a.value.workerId, r))
  {
    HandedOutIff(s, r);
    hide CanTake, FindWorker, Insert, Slot;
    var found := FindWorker(s, r.Step());
    if found.Some? {
      assert s.workers[found.value].id == found.value;
    }
  }

  lemma FirstFree(s: Sched, r: Request)
    requires WorkersOk(s) && r.LeafRequest? && FindWorker(s, LeafProve).Some?
    requires s.workers[FindWorker(s, LeafProve).value].active == []
    ensures forall j :: 0 <= j < FindWorker(s, LeafProve).value ==> !CanTake(s, j, r)
  {
    hide PackingKey;
    var i := FindWorker(s, LeafProve).value;
    FreeIffIdle(s, i);
    forall j | 0 <= j < i ensures !CanTake(s, j, r) {
      FreeIffIdle(s, j);
    }
  }

  lemma AssignKeepsWorkers(s: Sched, r: Request)
    requires WorkersOk(s) && FindWorker(s, r.Step()).Some?
    ensures var i := FindWorker(s, r.Step()).value;
            WorkersOk(Assign(s, i, r)) && Busy(Assign(s, i, r)) && SameFleet(s, Assign(s, i, r))
  {
    var i := FindWorker(s, r.Step()).value;
    FoundWorkerFits(s, r);
    var s', w := Assign(s, i, r), s.workers[i];
    assert s'.workers[i].active == w.active + [Slot(r)];
    assert WorkerOk(s'.workers[i], s.maxLeafProvers);
  }

  /** The slots after an assignment: one more, on the chosen worker. */
  lemma AssignSlots(s: Sched, i: nat, r: Request, w: nat, x: ActiveProof)
    requires i < |s.workers| && w < |s.workers|
    ensures SlotCount(Assign(s, i, r), w, x) == SlotCount(s, w, x) + if i == w && Slot(r) == x then 1 else 0
  {
  }

  lemma AssignOrQueueKeeps(s: Sched, r: Request)
    requires WorkersOk(s) && WillWake(s) && AllServiceable(s) && Serviceable(s, r)
    ensures var (s', a) := AssignOrQueue(s, r);
            WorkersOk(s') && WillWake(s') && AllServiceable(s') && SameFleet(s, s')
  {
    if FindWorker(s, r.Step()).Some? {
      AssignKeepsWorkers(s, r);
      SameRolesServe(s, AssignOrQueue(s, r).0);
    } else {
      QueuedMeansBusy(s, r);
      InsertMembers(s.pending, r);
      SameRolesServe(s, AssignOrQueue(s, r).0);
    }
  }

  lemma SameRolesServe(s: Sched, s': Sched)
    requires SameFleet(s, s')
    ensures forall r: Request :: Serviceable(s, r) ==> Serviceable(s', r)
  {
    forall r: Request | Serviceable(s, r) ensures Serviceable(s', r) {
      if r.EvmRequest? {
        var i :| 0 <= i < |s.workers| && s.workers[i].role.RunsEvmProve();
        assert s'.workers[i].role.RunsEvmProve();
      }
    }
  }

  lemma InsertMembers(q: seq<Request>, r: Request)
    ensures forall x :: x in Insert(q, r) <==> x in q || x == r
  {
    InsertKeepsItems(q, r);
    forall x ensures x in Insert(q, r) <==> x in q || x == r {
      assert x in Insert(q, r) <==> x in multiset(Insert(q, r));
    }
  }

  /** One dequeue leaves a queue that some busy worker will come back for, whatever it found. */
  lemma TryDequeueWakes(s: Sched)
    requires WorkersOk(s) && AllServiceable(s)
    ensures var (s', a) := TryDequeue(s);
            WorkersOk(s') && WillWake(s') && AllServiceable(s') && SameFleet(s, s')
  {
    if s.pending != [] {
      var r, rest := s.pending[0], s.(pending := s.pending[1..]);
      SameRolesServe(s, rest);
      assert r in s.pending && Serviceable(s, r);
      assert forall x :: x in rest.pending ==> x in s.pending;
      if FindWorker(rest, r.Step()).Some? {
        AssignKeepsWorkers(rest, r);
        SameRolesServe(s, TryDequeue(s).0);
      } else {
        QueuedMeansBusy(rest, r);
        InsertMembers(rest.pending, r);
        SameRolesServe(s, TryDequeue(s).0);
      }
    }
  }

  /** Draining ends with an empty queue, or with an item no worker can take. */
  lemma {:induction false} DrainPendingWakes(s: Sched)
    requires WorkersOk(s) && AllServiceable(s)
    ensures var (s', a) := DrainPending(s);
            && WorkersOk(s') && WillWake(s') && AllServiceable(s') && SameFleet(s, s')
            && (s'.pending == [] || exists r :: r in s'.pending && FindWorker(s', r.Step()).None?)
    decreases |s.pending|
  {
    TryDequeueWakes(s);
    var (s', a) := TryDequeue(s);
    if a.Some? {
      DrainPendingWakes(s');
    } else if s.pending != [] {
      var r := s.pending[0];
      InsertMembers(s.pending[1..], r);
      assert r in s'.pending && FindWorker(s', r.Step()).None?;
    }
  }

  lemma DrainUnfolds(d: Sched)
    ensures var (d', a) := TryDequeue(d);
            if a.None? then DrainPending(d) == (d', [])
            else |d'.pending| < |d.pending| && DrainPending(d) == (DrainPending(d').0, [a.value] + DrainPending(d').1)
  {
    hide FindWorker, Insert, Slot;
  }

  /** The queue it stops at is empty, or headed by an item no worker can take: a requeued item goes
    * behind its own class, which the same workers serve. */
  lemma {:induction false} DrainStopsAtHead(s: Sched)
    requires Sorted(s.pending)
    ensures var s' := DrainPending(s).0;
            Sorted(s'.pending) && (s'.pending == [] || FindWorker(s', s'.pending[0].Step()).None?)
    decreases |s.pending|
  {
    DrainUnfolds(s);
    var (s', a) := TryDequeue(s);
    hide DrainPending, FindWorker;
    if s.pending != [] {
      var r, rest := s.pending[0], s.pending[1..];
      if a.Some? {
        DrainStopsAtHead(s');
      } else {
        InsertSorted(rest, r);
        HeadOfRequeue(rest, r);
        QueueDoesNotChoose(s, rest, r.Step());
        QueueDoesNotChoose(s, s'.pending, r.Step());
      }
    }
  }

  lemma QueueDoesNotChoose(s: Sched, q: seq<Request>, step: Step)
    ensures FindWorker(s.(pending := q), step) == FindWorker(s, step)
  {
  }

  lemma HeadOfRequeue(rest: seq<Request>, r: Request)
    requires rest != [] ==> Class(r) <= Class(rest[0])
    ensures Insert(rest, r)[0].Step() == r.Step()
  {
  }

  /** An item that no worker can take goes to the back of its own class, past every item that arrived
    * before; one that a worker can take leaves the queue, and the rest stays as it was. */
  lemma HeadGoesBehindOrOut(s: Sched, c: nat)
    requires Sorted(s.pending) && s.pending != []
    ensures var (s', a) := TryDequeue(s);
            var r, rest := s.pending[0], s.pending[1..];
            if a.Some? then a.value.request == r && s'.pending == rest
            else OfClass(s'.pending, c) == OfClass(rest, c) + if Class(r) == c then [r] else []
  {
    SortedParts(s.pending);
    InsertIsFifoPerClass(s.pending[1..], s.pending[0], c);
    hide FindWorker, Insert, Class, Sorted, OfClass, Slot;
  }

  /** A result from a worker that the proof does not know changes nothing. */
  lemma StrangerChangesNothing(s: Sched, id: nat, r: ProofResult)
    requires s.numWorkers > 0 && forall w :: 0 <= w < |s.workers| ==> s.workers[w].id != id
    ensures CompleteWork(s, id, r) == (s, None) && WorkerDrained(s, id, r) == s
  {
    hide CompleteOn, TryDequeue;
  }

  /** Nothing is lost or duplicated: what was queued is queued or handed out. */
  lemma {:induction false} DrainPendingConserves(s: Sched)
    ensures var (s', a) := DrainPending(s);
            multiset(s'.pending) + multiset(RequestsOf(a)) == multiset(s.pending)
    decreases |s.pending|
  {
    TryDequeueConserves(s);
    var (s', a) := TryDequeue(s);
    if a.Some? {
      assert |s'.pending| < |s.pending|;
      hide TryDequeue, RequestsOf;
      DrainPendingConserves(s');
      RequestsOfCons(a.value, DrainPending(s').1);
    }
  }

  ghost function RequestsOf(a: seq<Assigned>): seq<Request> {
    seq(|a|, i requires 0 <= i < |a| => a[i].request)
  }

  lemma RequestsOfCons(x: Assigned, a: seq<Assigned>)
    ensures multiset(RequestsOf([x] + a)) == multiset{x.request} + multiset(RequestsOf(a))
  {
    assert RequestsOf([x] + a) == [x.request] + RequestsOf(a);
  }

  lemma TryDequeueConserves(s: Sched)
    ensures var (s', a) := TryDequeue(s);
            multiset(s'.pending) + (if a.Some? then multiset{a.value.request} else multiset{}) == multiset(s.pending)
  {
    if s.pending != [] {
      assert s.pending == [s.pending[0]] + s.pending[1..];
      InsertKeepsItems(s.pending[1..], s.pending[0]);
    }
  }

  /** Among equally loaded workers a leaf joins one whose first proof is the later internal layer,
    * any internal layer before a leaf; a less loaded worker comes before either. */
  lemma PackingOrder(w: Worker, v: Worker)
    ensures w.activeCount < v.activeCount ==> PackingKey(w) < PackingKey(v)
    ensures w.activeCount == v.activeCount && w.active != [] && v.active != [] && w.active[0].step.InternalProve? ==>
              && (v.active[0].step.LeafProve? ==> PackingKey(w) < PackingKey(v))
              && (v.active[0].step.InternalProve? && SlotOk(w.active[0]) && SlotOk(v.active[0]) ==>
                    var a, b := w.active[0].layerIdx.value, v.active[0].layerIdx.value;
                    (b < a && b < 100 ==> PackingKey(w) < PackingKey(v)) && (100 <= a && 100 <= b ==> PackingKey(w) == PackingKey(v)))
              && (v.active[0].step.EvmProve? ==> PackingKey(w) < PackingKey(v))
    ensures w.activeCount == v.activeCount && w.active != [] && v.active != [] && w.active[0].step.EvmProve? && v.active[0].step.LeafProve? ==>
              PackingKey(w) < PackingKey(v)
  {
  }

  // ---- freeing slots ----

  lemma {:induction false} RemoveFirstSlot(active: seq<ActiveProof>, x: ActiveProof)
    requires x in active && forall y :: y in active && y.step == x.step ==> y == x
    ensures multiset(RemoveFirst(active, x.step)) == multiset(active) - multiset{x}
    ensures |RemoveFirst(active, x.step)| == |active| - 1
  {
    assert active == [active[0]] + active[1..];
    if active[0].step != x.step {
      RemoveFirstSlot(active[1..], x);
    }
  }

  lemma {:induction false} RemoveFirstMembers(active: seq<ActiveProof>, step: Step)
    ensures forall y :: y in RemoveFirst(active, step) ==> y in active
    ensures OneInternal(active) ==> OneInternal(RemoveFirst(active, step))
  {
    if active != [] && active[0].step != step {
      RemoveFirstMembers(active[1..], step);
      var t := RemoveFirst(active[1..], step);
      if OneInternal(active) {
        forall i, j | 0 <= i < j < |RemoveFirst(active, step)|
          ensures !(RemoveFirst(active, step)[i].step.InternalProve? && RemoveFirst(active, step)[j].step.InternalProve?)
        {
          assert t[j - 1] in active[1..];
        }
      }
    }
  }

  lemma SameStepSameSlot(active: seq<ActiveProof>, x: ActiveProof, y: ActiveProof)
    requires OneInternal(active) && x in active && y in active && SlotOk(x) && SlotOk(y) && x.step == y.step
    ensures x == y
  {
    if x.step.InternalProve? {
      var i :| 0 <= i < |active| && active[i] == x;
      var j :| 0 <= j < |active| && active[j] == y;
      assert i == j by {
        if i < j {
        } else if j < i {
        }
      }
    }
  }

  /** Freeing the slot of a job the worker does hold removes exactly that slot. */
  lemma FreeSlotKeeps(w: Worker, x: ActiveProof, maxLeafProvers: nat)
    requires WorkerOk(w, maxLeafProvers) && x in w.active && x != MARKER
    ensures WorkerOk(FreeSlot(w, x.step), maxLeafProvers)
    ensures multiset(FreeSlot(w, x.step).active) == multiset(w.active) - multiset{x}
  {
    forall y | y in w.active && y.step == x.step ensures y == x {
      SameStepSameSlot(w.active, x, y);
    }
    RemoveFirstSlot(w.active, x);
    RemoveFirstMembers(w.active, x.step);
    assert MARKER !in w.active;
  }

  lemma ReleaseMarkerKeeps(w: Worker, maxLeafProvers: nat)
    requires WorkerOk(w, maxLeafProvers) && MARKER in w.active
    ensures ReleaseMarker(w).active == [] && ReleaseMarker(w).activeCount == 0
    ensures WorkerOk(ReleaseMarker(w), maxLeafProvers)
  {
    assert WithoutMarkers([MARKER]) == [] by {
      assert [MARKER][1..] == [];
    }
  }

  ghost predicate SlotsWithin(slots: seq<ActiveProof>, active: seq<ActiveProof>) {
    multiset(slots) <= multiset(active)
  }

  lemma SlotsWithinTail(active: seq<ActiveProof>)
    ensures SlotsWithin(active, active) && (active != [] ==> SlotsWithin(active[1..], active))
  {
    if active != [] {
      assert active == [active[0]] + active[1..];
    }
  }

  lemma {:induction false} WithoutMarkersShrinks(active: seq<ActiveProof>)
    ensures SlotsWithin(WithoutMarkers(active), active)
  {
    if active != [] {
      WithoutMarkersShrinks(active[1..]);
      assert active == [active[0]] + active[1..];
    }
  }

  lemma {:induction false} RemoveFirstShrinks(active: seq<ActiveProof>, step: Step)
    ensures SlotsWithin(RemoveFirst(active, step), active)
  {
    if active != [] {
      RemoveFirstShrinks(active[1..], step);
      assert active == [active[0]] + active[1..];
    }
  }

  lemma CompleteOnFrees(w: Worker, r: ProofResult, numWorkers: nat, total: Option<nat>)
    requires numWorkers > 0
    ensures var v := CompleteOn(w, r, numWorkers, total).0; SlotsWithin(v.active, w.active) && v.activeCount <= w.activeCount
  {
    hide WithoutMarkers, RemoveFirst, CompletedAllSegments, SlotsWithin;
    SlotsWithinTail(w.active);
    WithoutMarkersShrinks(w.active);
    RemoveFirstShrinks(w.active, LeafProve);
    RemoveFirstShrinks(w.active, InternalProve);
    RemoveFirstShrinks(w.active, EvmProve);
  }

  /** Drain-mode completion only frees: nothing is dispatched, no slot is gained, and no other
    * worker is touched. */
  lemma DrainedOnlyFrees(s: Sched, id: nat, r: ProofResult)
    requires s.numWorkers > 0
    ensures var s' := WorkerDrained(s, id, r);
            && s' == s.(workers := s'.workers) && |s'.workers| == |s.workers|
            && (forall i :: 0 <= i < |s.workers| ==> SlotsWithin(s'.workers[i].active, s.workers[i].active))
            && (forall i :: 0 <= i < |s.workers| ==> s'.workers[i].activeCount <= s.workers[i].activeCount)
            && (forall i :: 0 <= i < |s.workers| && s.workers[i].id != id ==> s'.workers[i] == s.workers[i])
  {
    forall i | 0 <= i < |s.workers| ensures SlotsWithin(s.workers[i].active, s.workers[i].active) {
      SlotsWithinTail(s.workers[i].active);
    }
    var found := FindId(s.workers, id);
    if found.Some? {
      assert s.workers[found.value].id == id;
      CompleteOnFrees(s.workers[found.value], r, s.numWorkers, s.numSegments);
    }
    hide FindId, CompleteOn, SlotsWithin;
  }

  lemma FindIdOf(s: Sched, w: nat)
    requires WorkersOk(s) && w < |s.workers|
    ensures FindId(s.workers, w) == Some(w)
  {
    var p := (x: Worker) => x.id == w;
    assert p(s.workers[w]);
    assert FindId(s.workers, w) == FirstWorker(s.workers, p);
  }

  // ---- shard ownership ----

  /** The segments of `0 .. total - 1` that worker `id` of `numWorkers` owns. */
  ghost function Shard(id: nat, total: nat, numWorkers: nat): set<nat>
    requires numWorkers > 0
  {
    set i | 0 <= i < total && i % numWorkers == id
  }

  /** The closed form counts the shard. */
  lemma {:induction false} ShardSize(id: nat, total: nat, numWorkers: nat)
    requires id < numWorkers
    ensures |Shard(id, total, numWorkers)| == ExpectedSegments(id, total, numWorkers)
    decreases total
  {
    if total == 0 {
      assert Shard(id, 0, numWorkers) == {};
    } else {
      ShardSize(id, total - 1, numWorkers);
      ExpectedStep(id, total, numWorkers);
      if (total - 1) % numWorkers == id {
        assert Shard(id, total, numWorkers) == Shard(id, total - 1, numWorkers) + {total - 1};
      } else {
        assert Shard(id, total, numWorkers) == Shard(id, total - 1, numWorkers);
      }
    }
  }

  lemma ExpectedStep(id: nat, total: nat, numWorkers: nat)
    requires id < numWorkers && total > 0
    ensures ExpectedSegments(id, total, numWorkers) ==
            ExpectedSegments(id, total - 1, numWorkers) + if (total - 1) % numWorkers == id then 1 else 0
  {
    hide CeilDiv;
    if total - 1 < id {
      DivUnique(total - 1, numWorkers, 0);
    } else {
      CeilStep(total - 1 - id, numWorkers);
      ModShift(total - 1, id, numWorkers);
      CeilZero(numWorkers);
      assert total - 1 - id + 1 == total - id;
    }
  }

  lemma CeilZero(d: nat)
    requires d > 0
    ensures CeilDiv(0, d) == 0
  {
    DivUnique(d - 1, d, 0);
  }

  lemma CeilStep(n: nat, d: nat)
    requires d > 0
    ensures CeilDiv(n + 1, d) == CeilDiv(n, d) + if n % d == 0 then 1 else 0
  {
    var q := n / d;
    DivBounds(n, d);
    assert (q + 1) * d == q * d + d;
    assert n == q * d + n % d;
    if n % d == 0 {
      DivUnique(n + d, d, q + 1);
      DivUnique(n + d - 1, d, q);
    } else {
      DivUnique(n + d, d, q + 1);
      DivUnique(n + d - 1, d, q + 1);
    }
  }

  lemma ModShift(n: nat, id: nat, d: nat)
    requires id < d && id <= n
    ensures n % d == id <==> (n - id) % d == 0
  {
    var q := (n - id) / d;
    DivBounds(n - id, d);
    if (n - id) % d == 0 {
      DivUnique(n, d, q);
    }
    if n % d == id {
      DivUnique(n - id, d, n / d);
    }
  }

  /** Segments of other workers never count: of any received segments below the total, the count test
    * holds exactly when the whole shard is among them. */
  lemma DoneIffShardCovered(id: nat, completed: set<nat>, numWorkers: nat, total: nat)
    requires id < numWorkers && forall x :: x in completed ==> x < total
    ensures CompletedAllSegments(id, completed, numWorkers, Some(total)) <==> Shard(id, total, numWorkers) <= completed
  {
    var own, shard := OwnedBy(completed, id, numWorkers), Shard(id, total, numWorkers);
    ShardSize(id, total, numWorkers);
    assert own <= shard;
    SubsetSize(own, shard);
    if shard <= completed {
      assert own == shard;
    }
    hide ExpectedSegments;
  }

  /** Counting received segments is as good as looking: given only genuine segments, the
    * count test holds exactly when the worker's whole shard has been received. */
  lemma CompletedIffWholeShard(id: nat, completed: set<nat>, numWorkers: nat, total: nat)
    requires id < numWorkers && completed <= Shard(id, total, numWorkers)
    ensures CompletedAllSegments(id, completed, numWorkers, Some(total)) <==> completed == Shard(id, total, numWorkers)
  {
    ShardSize(id, total, numWorkers);
    assert OwnedBy(completed, id, numWorkers) == completed;
    SubsetSize(completed, Shard(id, total, numWorkers));
  }
}
