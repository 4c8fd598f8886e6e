/** Phase 2 keeps the invariant: a result gives back exactly the slot it held, and every
  * marker goes exactly when its worker's whole shard is in. */
module AccountPhaseProof {
  import opened Protocol
  import opened TreePlan
  import opened PriorityQueue
  import opened ProofDriver
  import opened DriverRefinement
  import opened Scheduler
  import opened SchedulerFacts
  import opened Manager
  import opened ManagerCounting
  import opened ManagerInvariant
  import opened ReceivePhase
  import opened ReceiveEvents
  import opened DispatchPhases

  // ---- ticking off one handler ----

  ghost function TickedOff(hs: seq<Handler>, i: nat): seq<Handler>
    requires i < |hs|
  {
    hs[i := hs[i].(accounted := true)]
  }

  /** Ticking off a handler removes its weight from every message and slot count. */
  lemma TickedOffWeights(u: Setup, hs: seq<Handler>, i: nat, m: Measure)
    requires u.Valid() && i < |hs| && !hs[i].accounted
    ensures m.Asking? ==> Handlers(u, TickedOff(hs, i), m) == Handlers(u, hs, m)
    ensures !m.Asking? ==> Handlers(u, hs, m) == Handlers(u, TickedOff(hs, i), m) + HandlerWeight(u, hs[i], m)
  {
    HandlersUpdate(u, hs, i, hs[i].(accounted := true), m);
  }

  lemma TickedOffConserves(u: Setup, t: State, d: Sched, d': Sched, running: seq<Assigned>, hs: seq<Handler>, i: nat)
    requires u.Valid() && i < |hs| && !hs[i].accounted && d'.pending == d.pending && Conserved(u, t, d, running, hs)
    ensures Conserved(u, t, d', running, TickedOff(hs, i))
  {
    hide IsReady, IsStored, Jobs, Handlers, Count, TickedOff;
    forall n: Node | n.level >= 1 ensures Whereabouts(u, t, d', running, TickedOff(hs, i), n) == Bit(IsReady(u, t, n)) {
      TickedOffWeights(u, hs, i, Asking(n));
      assert Whereabouts(u, t, d, running, hs, n) == Bit(IsReady(u, t, n));
    }
  }

  lemma TickedOffGate(t: State, d: Sched, running: seq<Assigned>, hs: seq<Handler>, i: nat)
    requires i < |hs| && Gate(t, d, running, hs)
    ensures Gate(t, d, running, TickedOff(hs, i))
  {
    assert hs[i] in hs;
  }

  // ---- a recursion job gives its slot back ----

  ghost function Freed(d: Sched, w: nat, step: Step): Sched
    requires w < |d.workers|
  {
    d.(workers := d.workers[w := FreeSlot(d.workers[w], step)])
  }

  lemma SlotHeld(u: Setup, d: Sched, running: seq<Assigned>, hs: seq<Handler>, i: nat, x: ActiveProof)
    requires u.Valid() && SlotsMatch(u, d, running, hs) && i < |hs| && !hs[i].accounted
    requires SlotOfResult(hs[i].result) == Some(x) && hs[i].worker < |d.workers|
    ensures x in d.workers[hs[i].worker].active
  {
    HandlersAtLeast(u, hs, i, SlotOn(hs[i].worker, x));
    assert HandlerWeight(u, hs[i], SlotOn(hs[i].worker, x)) == 1;
    hide Jobs, Handlers;
    assert SlotCount(d, hs[i].worker, x) == ExpectedSlots(u, d, running, hs, hs[i].worker, x);
  }

  lemma FreeSlotSame(w: Worker, step: Step)
    ensures var v := FreeSlot(w, step); v.id == w.id && v.role == w.role && v.completed == w.completed
  {
  }

  lemma FreedWorkers(d: Sched, v: nat, x: ActiveProof)
    requires WorkersOk(d) && v < |d.workers| && x in d.workers[v].active && x != MARKER
    ensures WorkersOk(Freed(d, v, x.step))
    ensures multiset(Freed(d, v, x.step).workers[v].active) == multiset(d.workers[v].active) - multiset{x}
  {
    FreeSlotKeeps(d.workers[v], x, d.maxLeafProvers);
    FreeSlotSame(d.workers[v], x.step);
    hide FreeSlot, WorkerOk;
  }

  lemma FreedSlotAt(u: Setup, d: Sched, running: seq<Assigned>, hs: seq<Handler>, i: nat, x: ActiveProof, w: nat, y: ActiveProof)
    requires u.Valid() && SlotsMatch(u, d, running, hs) && i < |hs| && !hs[i].accounted
    requires SlotOfResult(hs[i].result) == Some(x) && hs[i].worker < |d.workers| && w < |d.workers|
    requires x in d.workers[hs[i].worker].active
    requires var d' := Freed(d, hs[i].worker, x.step);
             multiset(d'.workers[hs[i].worker].active) == multiset(d.workers[hs[i].worker].active) - multiset{x}
    ensures var d' := Freed(d, hs[i].worker, x.step); SlotCount(d', w, y) == ExpectedSlots(u, d', running, TickedOff(hs, i), w, y)
  {
    hide Jobs, Handlers, TickedOff, FreeSlot, Shard;
    FreeSlotSame(d.workers[hs[i].worker], x.step);
    TickedOffWeights(u, hs, i, SlotOn(w, y));
    assert SlotCount(d, w, y) == ExpectedSlots(u, d, running, hs, w, y);
  }

  lemma FreedSlots(u: Setup, d: Sched, running: seq<Assigned>, hs: seq<Handler>, i: nat, x: ActiveProof)
    requires u.Valid() && WorkersOk(d) && SlotsMatch(u, d, running, hs) && i < |hs| && !hs[i].accounted
    requires SlotOfResult(hs[i].result) == Some(x) && hs[i].worker < |d.workers|
    ensures SlotsMatch(u, Freed(d, hs[i].worker, x.step), running, TickedOff(hs, i)) && WorkersOk(Freed(d, hs[i].worker, x.step))
  {
    hide Jobs, Handlers, TickedOff, FreeSlot, WorkersOk, ExpectedSlots, SlotCount;
    var d' := Freed(d, hs[i].worker, x.step);
    SlotHeld(u, d, running, hs, i, x);
    MarkerIsNoResult(hs[i].result);
    FreedWorkers(d, hs[i].worker, x);
    forall w: nat, y: ActiveProof | w < |d'.workers| ensures SlotCount(d', w, y) == ExpectedSlots(u, d', running, TickedOff(hs, i), w, y) {
      FreedSlotAt(u, d, running, hs, i, x, w, y);
    }
  }

  lemma MarkerIsNoResult(r: ProofResult)
    ensures SlotOfResult(r) != Some(MARKER)
  {
  }

  lemma FreedMessages(u: Setup, t: State, d: Sched, hs: seq<Handler>, i: nat, step: Step)
    requires u.Valid() && Fleet(u, d) && AppsMatch(u, t, d, hs) && CountMatches(u, t, d, hs)
    requires i < |hs| && !hs[i].accounted && SlotOfResult(hs[i].result).Some? && hs[i].worker < |d.workers|
    ensures var d' := Freed(d, hs[i].worker, step);
            Fleet(u, d') && AppsMatch(u, t, d', TickedOff(hs, i)) && CountMatches(u, t, d', TickedOff(hs, i))
  {
    hide Handlers, TickedOff, RemoveFirst;
    var d' := Freed(d, hs[i].worker, step);
    TickedOffWeights(u, hs, i, CountMessage);
    forall k: nat | k < u.segments ensures AppAccounted(u, t, d', TickedOff(hs, i), k) {
      TickedOffWeights(u, hs, i, AppFrom(k));
      assert AppAccounted(u, t, d, hs, k);
    }
  }

  lemma JobsPassTheGate(t: State, d: Sched, running: seq<Assigned>, hs: seq<Handler>, i: nat)
    requires Gate(t, d, running, hs) && i < |hs| && SlotOfResult(hs[i].result).Some?
    ensures d.numSegments.Some?
  {
    assert hs[i] in hs;
  }

  lemma JobCore(u: Setup, t: State, d: Sched, running: seq<Assigned>, hs: seq<Handler>, i: nat, x: ActiveProof)
    requires u.Valid() && SchedCore(u, t, d, running, hs) && i < |hs| && !hs[i].accounted
    requires SlotOfResult(hs[i].result) == Some(x) && hs[i].worker < |d.workers|
    ensures SchedCore(u, t, Freed(d, hs[i].worker, x.step), running, TickedOff(hs, i))
  {
    CoreToPieces(u, t, d, running, hs);
    hide SchedCore, Conserved, SlotsMatch, AppsMatch, CountMatches, WorkersOk, Good, FreeSlot, JobsOk, Fleet;
    var d' := Freed(d, hs[i].worker, x.step);
    JobsPassTheGate(t, d, running, hs, i);
    TickedOffConserves(u, t, d, d', running, hs, i);
    FreedSlots(u, d, running, hs, i, x);
    FreedMessages(u, t, d, hs, i, x.step);
    CoreFromPieces(u, t, d', running, TickedOff(hs, i));
  }

  /** Accounting for an unsealed result other than the count, through its worker's own step. */
  lemma AccountEffect(d: Sched, h: Handler)
    requires d.numWorkers > 0 && WorkersOk(d) && h.worker < |d.workers| && !h.result.ExecuteE2Result? && !h.sealed
    ensures var (w, freed) := CompleteOn(d.workers[h.worker], h.result, d.numWorkers, d.numSegments);
            var d' := d.(workers := d.workers[h.worker := w]);
            var (d'', a) := TryDequeue(d');
            AccountOn(d, h) == if freed then (d'', if a.Some? then [a.value] else []) else (d', [])
  {
    FindIdOf(d, h.worker);
    hide CompleteOn, TryDequeue, FindId, WorkersOk;
    var (w, freed) := CompleteOn(d.workers[h.worker], h.result, d.numWorkers, d.numSegments);
    assert ApplyCompletion(d, h.worker, h.result) == Applied(d.(workers := d.workers[h.worker := w]), freed);
    var (s2, pulled) := CompleteWork(d, h.worker, h.result);
    var handedOut := if pulled.Some? then [pulled.value] else [];
    assert AccountOn(d, h) == (s2, [] + handedOut);
    assert [] + handedOut == handedOut;
  }

  lemma AccountJobEffect(d: Sched, h: Handler)
    requires d.numWorkers > 0 && WorkersOk(d) && h.worker < |d.workers| && SlotOfResult(h.result).Some? && !h.sealed
    ensures var (d', a) := TryDequeue(Freed(d, h.worker, SlotOfResult(h.result).value.step));
            AccountOn(d, h) == (d', if a.Some? then [a.value] else [])
  {
    AccountEffect(d, h);
    hide AccountOn, FreeSlot, TryDequeue, FindId;
  }

  lemma AccountJobKeeps(u: Setup, t: State, d: Sched, running: seq<Assigned>, hs: seq<Handler>, i: nat)
    requires u.Valid() && d.numWorkers > 0 && SchedLive(u, t, d, running, hs) && i < |hs| && !hs[i].accounted && !hs[i].sealed
    requires SlotOfResult(hs[i].result).Some? && hs[i].worker < |d.workers|
    ensures var (d', a) := AccountOn(d, hs[i]); SchedLive(u, t, d', running + a, TickedOff(hs, i))
  {
    LiveIsCore(u, t, d, running, hs);
    CoreToPieces(u, t, d, running, hs);
    hide SchedCore, SchedLive, AccountOn, TryDequeue, WorkersOk, Freed, TickedOff;
    var x := SlotOfResult(hs[i].result).value;
    JobCore(u, t, d, running, hs, i, x);
    TryDequeueKeeps(u, t, Freed(d, hs[i].worker, x.step), running, TickedOff(hs, i));
    AccountJobEffect(d, hs[i]);
  }

  // ---- an app result ----

  ghost function Received(d: Sched, w: nat, k: nat): Sched
    requires w < |d.workers| && d.numWorkers > 0
  {
    d.(workers := d.workers[w := CompleteOn(d.workers[w], AppResult(AppState(k, None, None, None)), d.numWorkers, d.numSegments).0])
  }

  /** An app result in hand is one its worker has not been credited with, so it holds its marker. */
  lemma AppInHand(u: Setup, t: State, d: Sched, running: seq<Assigned>, hs: seq<Handler>, i: nat, k: nat)
    requires u.Valid() && Fleet(u, d) && WorkersOk(d) && SlotsMatch(u, d, running, hs) && AppsMatch(u, t, d, hs)
    requires i < |hs| && !hs[i].accounted && hs[i].result.AppResult? && hs[i].result.app.segmentIdx == k < u.segments
    ensures var w := k % u.StarkWorkers();
            w < |d.workers| && k !in d.workers[w].completed && Owes(u, d, w) && d.workers[w].active == [MARKER]
  {
    var w := k % u.StarkWorkers();
    HandlersAtLeast(u, hs, i, AppFrom(k));
    assert HandlerWeight(u, hs[i], AppFrom(k)) == 1;
    hide Jobs, Handlers;
    assert AppAccounted(u, t, d, hs, k);
    assert k in Shard(w, u.segments, u.StarkWorkers());
    assert SlotCount(d, w, MARKER) == ExpectedSlots(u, d, running, hs, w, MARKER);
    assert WorkerOk(d.workers[w], d.maxLeafProvers);
  }

  /** After the credit, the marker is still there exactly while the worker owes proofs. */
  lemma CreditedWorker(u: Setup, t: State, d: Sched, hs: seq<Handler>, k: nat)
    requires u.Valid() && Fleet(u, d) && WorkersOk(d) && AppsMatch(u, t, d, hs)
    requires (d.numSegments.Some? ==> d.numSegments.value == u.segments)
    requires k < u.segments && k % u.StarkWorkers() < |d.workers| && d.workers[k % u.StarkWorkers()].active == [MARKER]
    ensures var w := k % u.StarkWorkers();
            var v := Received(d, w, k).workers[w];
            && v.completed == d.workers[w].completed + {k} <= Shard(w, u.segments, u.StarkWorkers())
            && v.active == (if Owes(u, Received(d, w, k), w) then [MARKER] else [])
            && v.id == w && v.role == d.workers[w].role && WorkerOk(v, d.maxLeafProvers)
            && (Owes(u, Received(d, w, k), w) <==>
                !CompleteOn(d.workers[w], AppResult(AppState(k, None, None, None)), d.numWorkers, d.numSegments).1)
  {
    var w := k % u.StarkWorkers();
    assert WorkerOk(d.workers[w], d.maxLeafProvers);
    ReleaseMarkerKeeps(d.workers[w].(completed := d.workers[w].completed + {k}), d.maxLeafProvers);
    CompletedIffWholeShard(w, d.workers[w].completed + {k}, u.StarkWorkers(), u.segments);
    hide CompletedAllSegments, WithoutMarkers, Handlers, Shard;
    assert k in Shard(w, u.segments, u.StarkWorkers()) by { InShard(w, u.segments, u.StarkWorkers(), k); }
  }

  lemma InShard(w: nat, total: nat, numWorkers: nat, k: nat)
    requires numWorkers > 0
    ensures k in Shard(w, total, numWorkers) <==> k < total && k % numWorkers == w
  {
  }

  lemma ReceivedSlots(u: Setup, d: Sched, running: seq<Assigned>, hs: seq<Handler>, i: nat, w: nat, k: nat)
    requires u.Valid() && d.numWorkers > 0 && SlotsMatch(u, d, running, hs) && i < |hs| && !hs[i].accounted && hs[i].result.AppResult?
    requires w < |d.workers| && d.workers[w].active == [MARKER] && Owes(u, d, w)
    requires Received(d, w, k).workers[w].active == if Owes(u, Received(d, w, k), w) then [MARKER] else []
    ensures SlotsMatch(u, Received(d, w, k), running, TickedOff(hs, i))
  {
    var d' := Received(d, w, k);
    hide Jobs, Handlers, TickedOff, CompleteOn;
    forall v: nat, y: ActiveProof | v < |d'.workers| ensures SlotCount(d', v, y) == ExpectedSlots(u, d', running, TickedOff(hs, i), v, y) {
      TickedOffWeights(u, hs, i, SlotOn(v, y));
      assert SlotCount(d, v, y) == ExpectedSlots(u, d, running, hs, v, y);
      if v != w {
        assert Owes(u, d', v) <==> Owes(u, d, v);
      }
    }
  }

  lemma ReceivedMessages(u: Setup, t: State, d: Sched, hs: seq<Handler>, i: nat, k: nat)
    requires u.Valid() && Fleet(u, d) && AppsMatch(u, t, d, hs) && CountMatches(u, t, d, hs)
    requires i < |hs| && !hs[i].accounted && hs[i].result.AppResult? && hs[i].result.app.segmentIdx == k < u.segments
    requires k % u.StarkWorkers() < |d.workers| && k !in d.workers[k % u.StarkWorkers()].completed
    requires var w := k % u.StarkWorkers();
             var v := Received(d, w, k).workers[w];
             v.completed == d.workers[w].completed + {k} <= Shard(w, u.segments, u.StarkWorkers()) && v.role == d.workers[w].role
    ensures var d' := Received(d, k % u.StarkWorkers(), k);
            Fleet(u, d') && AppsMatch(u, t, d', TickedOff(hs, i)) && CountMatches(u, t, d', TickedOff(hs, i))
  {
    hide Handlers, TickedOff, CompleteOn, Shard;
    var d' := Received(d, k % u.StarkWorkers(), k);
    TickedOffWeights(u, hs, i, CountMessage);
    forall j: nat | j < u.segments ensures AppAccounted(u, t, d', TickedOff(hs, i), j) {
      TickedOffWeights(u, hs, i, AppFrom(j));
      assert AppAccounted(u, t, d, hs, j);
    }
  }

  lemma AppCore(u: Setup, t: State, d: Sched, running: seq<Assigned>, hs: seq<Handler>, i: nat, k: nat)
    requires u.Valid() && SchedCore(u, t, d, running, hs) && i < |hs| && !hs[i].accounted
    requires hs[i].result.AppResult? && hs[i].result.app.segmentIdx == k < u.segments
    ensures var w := k % u.StarkWorkers();
            && w < |d.workers| && d.numWorkers > 0
            && SchedCore(u, t, Received(d, w, k), running, TickedOff(hs, i))
            && (!CompleteOn(d.workers[w], AppResult(AppState(k, None, None, None)), d.numWorkers, d.numSegments).1 ==>
                  WillWake(Received(d, w, k)))
  {
    hide SchedCore, Conserved, SlotsMatch, AppsMatch, WorkerOk, Good, JobsOk, CompleteOn, Shard, Owes;
    CoreToPieces(u, t, d, running, hs);
    var w := k % u.StarkWorkers();
    AppInHand(u, t, d, running, hs, i, k);
    var d' := Received(d, w, k);
    CreditedWorker(u, t, d, hs, k);
    ReceivedSlots(u, d, running, hs, i, w, k);
    ReceivedMessages(u, t, d, hs, i, k);
    TickedOffConserves(u, t, d, d', running, hs, i);
    TickedOffGate(t, d, running, hs, i);
    assert WorkersOk(d');
    CoreFromPieces(u, t, d', running, TickedOff(hs, i));
  }

  lemma AccountAppEffect(d: Sched, h: Handler)
    requires d.numWorkers > 0 && WorkersOk(d) && h.worker < |d.workers| && h.result.AppResult? && !h.sealed
    ensures var k := h.result.app.segmentIdx;
            var (d', a) := TryDequeue(Received(d, h.worker, k));
            if CompleteOn(d.workers[h.worker], AppResult(AppState(k, None, None, None)), d.numWorkers, d.numSegments).1
            then AccountOn(d, h) == (d', if a.Some? then [a.value] else [])
            else AccountOn(d, h) == (Received(d, h.worker, k), [])
  {
    AccountEffect(d, h);
    hide AccountOn, ReleaseMarker, TryDequeue, FindId, CompletedAllSegments;
  }

  lemma AccountAppKeeps(u: Setup, t: State, d: Sched, running: seq<Assigned>, hs: seq<Handler>, i: nat)
    requires u.Valid() && d.numWorkers > 0 && SchedLive(u, t, d, running, hs) && i < |hs| && !hs[i].accounted && !hs[i].sealed
    requires hs[i].result.AppResult? && hs[i].result.app.segmentIdx < u.segments
    requires hs[i].worker == hs[i].result.app.segmentIdx % u.StarkWorkers()
    ensures var (d', a) := AccountOn(d, hs[i]); SchedLive(u, t, d', running + a, TickedOff(hs, i))
  {
    LiveIsCore(u, t, d, running, hs);
    CoreToPieces(u, t, d, running, hs);
    var k := hs[i].result.app.segmentIdx;
    hide SchedCore, AccountOn, TryDequeue, WorkersOk, TickedOff, CompleteOn, WillWake;
    AppCore(u, t, d, running, hs, i, k);
    AccountAppEffect(d, hs[i]);
    if CompleteOn(d.workers[hs[i].worker], AppResult(AppState(k, None, None, None)), d.numWorkers, d.numSegments).1 {
      hide SchedLive;
      TryDequeueKeeps(u, t, Received(d, hs[i].worker, k), running, TickedOff(hs, i));
    } else {
      assert running + [] == running;
    }
  }

  // ---- the count ----

  ghost function Counted(d: Sched, n: nat): Sched
    requires d.numWorkers > 0
  {
    d.(numSegments := Some(n), workers := ReleaseAllDone(d.workers, n, d.numWorkers))
  }

  lemma CountInHand(u: Setup, t: State, d: Sched, hs: seq<Handler>, i: nat)
    requires u.Valid() && CountMatches(u, t, d, hs) && i < |hs| && !hs[i].accounted && hs[i].result.ExecuteE2Result?
    ensures d.numSegments.None?
  {
    HandlersAtLeast(u, hs, i, CountMessage);
    hide Handlers;
  }

  lemma {:induction false} AppsHoldNoSlot(u: Setup, hs: seq<Handler>, w: nat, x: ActiveProof)
    requires u.Valid() && FromApps(hs)
    ensures Handlers(u, hs, SlotOn(w, x)) == 0
  {
    if hs != [] {
      AppsHoldNoSlot(u, hs[..|hs| - 1], w, x);
      assert hs[|hs| - 1] in hs;
    }
  }

  lemma FirstIsCounted(active: seq<ActiveProof>)
    ensures active == [] || multiset(active)[active[0]] > 0
  {
  }

  /** Until the count is known, a STARK worker holds its marker alone and a dedicated one nothing. */
  lemma BeforeCount(u: Setup, t: State, d: Sched, running: seq<Assigned>, hs: seq<Handler>, w: nat)
    requires u.Valid() && Fleet(u, d) && WorkersOk(d) && SlotsMatch(u, d, running, hs) && Gate(t, d, running, hs)
    requires d.numSegments.None? && w < |d.workers|
    ensures d.workers[w].active == if w < u.StarkWorkers() then [MARKER] else []
  {
    assert WorkerOk(d.workers[w], d.maxLeafProvers);
    if w < u.StarkWorkers() {
      MarkerHeld(u, d, running, hs, w);
    } else {
      var x := if d.workers[w].active == [] then MARKER else d.workers[w].active[0];
      AppsHoldNoSlot(u, hs, w, x);
      hide Handlers;
      assert SlotCount(d, w, x) == ExpectedSlots(u, d, running, hs, w, x);
      FirstIsCounted(d.workers[w].active);
    }
  }

  lemma ReleasedIff(u: Setup, t: State, d: Sched, hs: seq<Handler>, w: nat)
    requires u.Valid() && Fleet(u, d) && WorkersOk(d) && AppsMatch(u, t, d, hs) && w < |d.workers|
    requires d.workers[w].active == if w < u.StarkWorkers() then [MARKER] else []
    ensures ReleasedByCount(d.workers[w], u.segments, d.numWorkers) <==>
              w < u.StarkWorkers() && d.workers[w].completed == Shard(w, u.segments, u.StarkWorkers())
  {
    assert WorkerOk(d.workers[w], d.maxLeafProvers);
    if w < u.StarkWorkers() {
      CompletedIffWholeShard(w, d.workers[w].completed, u.StarkWorkers(), u.segments);
      ShardSize(w, u.segments, u.StarkWorkers());
      hide CompletedAllSegments, ExpectedSegments;
      if |Shard(w, u.segments, u.StarkWorkers())| == 0 {
        assert d.workers[w].completed == Shard(w, u.segments, u.StarkWorkers());
      }
    }
  }

  lemma CountedWorker(u: Setup, t: State, d: Sched, running: seq<Assigned>, hs: seq<Handler>, w: nat)
    requires u.Valid() && Fleet(u, d) && WorkersOk(d) && SlotsMatch(u, d, running, hs) && AppsMatch(u, t, d, hs) && Gate(t, d, running, hs)
    requires d.numSegments.None? && w < |d.workers|
    ensures d.numWorkers > 0
    ensures var v := Counted(d, u.segments).workers[w];
            && v.active == (if Owes(u, Counted(d, u.segments), w) then [MARKER] else [])
            && v.id == w && v.role == d.workers[w].role && v.completed == d.workers[w].completed
            && WorkerOk(v, d.maxLeafProvers)
    ensures !ReleasedByCount(d.workers[w], u.segments, d.numWorkers) ==> Counted(d, u.segments).workers[w] == d.workers[w]
  {
    BeforeCount(u, t, d, running, hs, w);
    ReleasedIff(u, t, d, hs, w);
    assert WorkerOk(d.workers[w], d.maxLeafProvers);
    hide ReleasedByCount, Shard, Handlers, Jobs;
    if w < u.StarkWorkers() {
      ReleaseMarkerKeeps(d.workers[w], d.maxLeafProvers);
    }
  }

  lemma NoJobs(u: Setup, m: Measure)
    requires u.Valid()
    ensures Jobs(u, [], m) == 0
  {
  }

  lemma CountedSlots(u: Setup, t: State, d: Sched, running: seq<Assigned>, hs: seq<Handler>, i: nat)
    requires u.Valid() && Fleet(u, d) && WorkersOk(d) && SlotsMatch(u, d, running, hs) && AppsMatch(u, t, d, hs) && Gate(t, d, running, hs)
    requires d.numSegments.None? && d.numWorkers > 0 && i < |hs| && !hs[i].accounted && hs[i].result.ExecuteE2Result?
    ensures SlotsMatch(u, Counted(d, u.segments), running, TickedOff(hs, i))
  {
    var d' := Counted(d, u.segments);
    SameLength(d.workers, u.segments, d.numWorkers);
    hide Handlers, TickedOff, ReleaseAllDone, Owes, WorkerOk, AppsMatch, Jobs, Fleet;
    forall v: nat, y: ActiveProof | v < |d'.workers| ensures SlotCount(d', v, y) == ExpectedSlots(u, d', running, TickedOff(hs, i), v, y) {
      CountedWorker(u, t, d, running, hs, v);
      AppsHoldNoSlot(u, hs, v, y);
      TickedOffWeights(u, hs, i, SlotOn(v, y));
      NoJobs(u, SlotOn(v, y));
    }
  }

  lemma CountedMessages(u: Setup, t: State, d: Sched, running: seq<Assigned>, hs: seq<Handler>, i: nat)
    requires u.Valid() && Fleet(u, d) && WorkersOk(d) && SlotsMatch(u, d, running, hs) && AppsMatch(u, t, d, hs) && Gate(t, d, running, hs)
    requires CountMatches(u, t, d, hs)
    requires d.numSegments.None? && d.numWorkers > 0 && i < |hs| && !hs[i].accounted && hs[i].result.ExecuteE2Result?
    ensures var d' := Counted(d, u.segments);
            Fleet(u, d') && WorkersOk(d') && AppsMatch(u, t, d', TickedOff(hs, i)) && CountMatches(u, t, d', TickedOff(hs, i))
  {
    var d' := Counted(d, u.segments);
    forall w | 0 <= w < |d.workers|
      ensures d'.workers[w].id == w && d'.workers[w].role == d.workers[w].role && d'.workers[w].completed == d.workers[w].completed
      ensures WorkerOk(d'.workers[w], d.maxLeafProvers)
    {
      CountedWorker(u, t, d, running, hs, w);
    }
    TickedOffWeights(u, hs, i, CountMessage);
    hide Handlers, TickedOff, WorkerOk, ReleaseAllDone, SlotsMatch, Gate;
    SameLength(d.workers, u.segments, d.numWorkers);
    forall j: nat | j < u.segments ensures AppAccounted(u, t, d', TickedOff(hs, i), j) {
      TickedOffWeights(u, hs, i, AppFrom(j));
      assert AppAccounted(u, t, d, hs, j);
    }
  }

  lemma SameLength(workers: seq<Worker>, n: nat, numWorkers: nat)
    requires numWorkers > 0
    ensures |ReleaseAllDone(workers, n, numWorkers)| == |workers|
  {
  }

  lemma CountedCore(u: Setup, t: State, d: Sched, running: seq<Assigned>, hs: seq<Handler>, i: nat)
    requires u.Valid() && SchedCore(u, t, d, running, hs) && d.numWorkers > 0
    requires i < |hs| && !hs[i].accounted && hs[i].result.ExecuteE2Result?
    ensures SchedCore(u, t, Counted(d, u.segments), running, TickedOff(hs, i))
    ensures WillWake(d) && !SomeReleased(d.workers, u.segments, d.numWorkers) ==> WillWake(Counted(d, u.segments))
  {
    CoreToPieces(u, t, d, running, hs);
    var d' := Counted(d, u.segments);
    CountInHand(u, t, d, hs, i);
    CountedSlots(u, t, d, running, hs, i);
    CountedMessages(u, t, d, running, hs, i);
    if !SomeReleased(d.workers, u.segments, d.numWorkers) {
      forall w | 0 <= w < |d.workers| ensures d'.workers[w] == d.workers[w] {
        CountedWorker(u, t, d, running, hs, w);
      }
    }
    hide SchedCore, Conserved, SlotsMatch, AppsMatch, CountMatches, WorkersOk, Good, JobsOk, ReleaseAllDone, SomeReleased, Handlers, Fleet;
    TickedOffConserves(u, t, d, d', running, hs, i);
    CoreFromPieces(u, t, d', running, TickedOff(hs, i));
    if !SomeReleased(d.workers, u.segments, d.numWorkers) {
      assert |d'.workers| == |d.workers| by { SameLength(d.workers, u.segments, d.numWorkers); }
      assert d'.workers == d.workers;
    }
  }

  /** The completion of an ExecuteE2 result itself frees nothing. */
  lemma CountCompletesNothing(d: Sched, w: nat, r: ProofResult)
    requires d.numWorkers > 0 && r.ExecuteE2Result?
    ensures CompleteWork(d, w, r) == (d, None)
  {
    var found := FindId(d.workers, w);
    hide FindId, TryDequeue;
    if found.Some? {
      FindIdInRange(d.workers, w);
      assert d.workers[found.value := d.workers[found.value]] == d.workers;
    }
  }

  lemma FindIdInRange(workers: seq<Worker>, w: nat)
    ensures var r := FindId(workers, w); r.Some? ==> r.value < |workers|
  {
  }

  lemma AccountCountEffect(d: Sched, h: Handler)
    requires d.numWorkers > 0 && h.result.ExecuteE2Result?
    ensures var n := h.result.numSegments;
            AccountOn(d, h) == if SomeReleased(d.workers, n, d.numWorkers) then DrainPending(Counted(d, n)) else (Counted(d, n), [])
  {
    var (s1, released) := SetNumSegments(d, h.result.numSegments);
    SetNumSegmentsKeeps(d, h.result.numSegments);
    CountCompletesNothing(s1, h.worker, h.result);
    hide SomeReleased, DrainPending, ReleaseAllDone, CompleteWork;
    assert released + [] == released;
  }

  lemma AccountCountKeeps(u: Setup, t: State, d: Sched, running: seq<Assigned>, hs: seq<Handler>, i: nat)
    requires u.Valid() && d.numWorkers > 0 && SchedLive(u, t, d, running, hs) && i < |hs| && !hs[i].accounted
    requires hs[i].result.ExecuteE2Result? && hs[i].result.numSegments == u.segments
    ensures var (d', a) := AccountOn(d, hs[i]); SchedLive(u, t, d', running + a, TickedOff(hs, i))
  {
    LiveIsCore(u, t, d, running, hs);
    hide SchedCore, AccountOn, DrainPending, TickedOff, SomeReleased, WillWake;
    CountedCore(u, t, d, running, hs, i);
    AccountCountEffect(d, hs[i]);
    if SomeReleased(d.workers, u.segments, d.numWorkers) {
      hide SchedLive;
      DrainKeeps(u, t, Counted(d, u.segments), running, TickedOff(hs, i));
    } else {
      assert running + [] == running;
    }
  }

  // ---- any unsealed result ----

  lemma AccountKeepsSched(u: Setup, t: State, d: Sched, running: seq<Assigned>, hs: seq<Handler>, i: nat)
    requires u.Valid() && d.numWorkers > 0 && SchedLive(u, t, d, running, hs) && HandlersOk(u, t, hs)
    requires i < |hs| && !hs[i].accounted && !hs[i].sealed
    ensures var (d', a) := AccountOn(d, hs[i]); SchedLive(u, t, d', running + a, TickedOff(hs, i))
  {
    var h := hs[i];
    assert HandlerOk(u, t, h);
    assert h.worker < |d.workers|;
    hide SchedLive, AccountOn, TickedOff, AllGood;
    match h.result
    case AppResult(_) => AccountAppKeeps(u, t, d, running, hs, i);
    case ExecuteE2Result(_, _) => AccountCountKeeps(u, t, d, running, hs, i);
    case LeafResult(_) => AccountJobKeeps(u, t, d, running, hs, i);
    case InternalResult(_) => AccountJobKeeps(u, t, d, running, hs, i);
    case EvmResult(_) => AccountJobKeeps(u, t, d, running, hs, i);
    case ErrorResult(_, _) =>
  }
}
