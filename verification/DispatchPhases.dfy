/** Phases 2 and 3 keep the invariant: placing a request, giving slots back, pulling work. */
module DispatchPhases {
  import opened Protocol
  import opened TreePlan
  import opened PriorityQueue
  import opened ProofDriver
  import opened DriverRefinement
  import opened Scheduler
  import opened SchedulerFacts
  import opened Manager
  import opened ManagerCounting
  import opened ManagerInvariant
  import opened ReceivePhase
  import opened ReceiveEvents

  // ---- placing one request that is in nobody's queue yet ----

  ghost predicate ConservedWith(u: Setup, t: State, d: Sched, running: seq<Assigned>, hs: seq<Handler>, r: Request)
    requires u.Valid()
  {
    forall n: Node :: n.level >= 1 ==> Whereabouts(u, t, d, running, hs, n) + Bit(Asked(u, r) == n) == Bit(IsReady(u, t, n))
  }

  ghost predicate CoreWith(u: Setup, t: State, d: Sched, running: seq<Assigned>, hs: seq<Handler>, r: Request)
    requires u.Valid()
  {
    && Fleet(u, d) && WorkersOk(d) && AllGood(u, d.pending) && JobsOk(u, running) && Good(u, r)
    && ConservedWith(u, t, d, running, hs, r)
    && SlotsMatch(u, d, running, hs)
    && AppsMatch(u, t, d, hs) && CountMatches(u, t, d, hs)
    && Gate(t, d, running, hs)
  }

  lemma GoodServiceable(u: Setup, d: Sched, r: Request)
    requires u.Valid() && Fleet(u, d) && Good(u, r)
    ensures Serviceable(d, r)
  {
    if r.EvmRequest? {
      assert u.config.proofType.Evm?;
      var i :| 0 <= i < |u.roles| && u.roles[i].RunsEvmProve();
      assert d.workers[i].role.RunsEvmProve();
    }
  }

  lemma FleetMoves(u: Setup, t: State, d: Sched, d': Sched, hs: seq<Handler>)
    requires u.Valid() && Fleet(u, d) && SameFleet(d, d') && AppsMatch(u, t, d, hs) && CountMatches(u, t, d, hs)
    ensures Fleet(u, d') && AppsMatch(u, t, d', hs) && CountMatches(u, t, d', hs)
    ensures forall w: nat :: w < |d.workers| ==> (Owes(u, d', w) <==> Owes(u, d, w))
  {
    hide Handlers;
    forall i: nat | i < u.segments ensures AppAccounted(u, t, d', hs, i) {
      assert AppAccounted(u, t, d, hs, i);
      assert i % u.StarkWorkers() < |d.workers|;
    }
  }

  lemma AssignCore(u: Setup, t: State, d: Sched, running: seq<Assigned>, hs: seq<Handler>, r: Request)
    requires u.Valid() && CoreWith(u, t, d, running, hs, r) && d.numSegments.Some? && FindWorker(d, r.Step()).Some?
    ensures var i := FindWorker(d, r.Step()).value;
            SchedCore(u, t, Assign(d, i, r), running + [Assigned(d.workers[i].id, r)], hs) && Busy(Assign(d, i, r))
  {
    hide CoreWith, SchedCore, Conserved, ConservedWith, SlotsMatch, AppsMatch, CountMatches, WorkersOk, Good, Busy, Fleet, SameFleet;
    var i := FindWorker(d, r.Step()).value;
    var d', j := Assign(d, i, r), Assigned(d.workers[i].id, r);
    CoreWithToPieces(u, t, d, running, hs, r);
    AssignKeepsWorkers(d, r);
    FleetMoves(u, t, d, d', hs);
    IdsArePositions(u, d, i);
    AssignConserves(u, t, d, running, hs, r, i);
    AssignSlotsMatch(u, d, running, hs, r, i);
    assert JobsOk(u, running + [j]);
    CoreFromPieces(u, t, d', running + [j], hs);
  }

  lemma CoreWithToPieces(u: Setup, t: State, d: Sched, running: seq<Assigned>, hs: seq<Handler>, r: Request)
    requires u.Valid() && CoreWith(u, t, d, running, hs, r)
    ensures Fleet(u, d) && WorkersOk(d) && AllGood(u, d.pending) && JobsOk(u, running) && Good(u, r)
    ensures ConservedWith(u, t, d, running, hs, r) && SlotsMatch(u, d, running, hs)
    ensures AppsMatch(u, t, d, hs) && CountMatches(u, t, d, hs) && Gate(t, d, running, hs)
  {
  }

  lemma IdsArePositions(u: Setup, d: Sched, i: nat)
    requires u.Valid() && WorkersOk(d) && Fleet(u, d) && i < |d.workers|
    ensures d.workers[i].id == i < |u.roles|
  {
  }

  lemma AssignConserves(u: Setup, t: State, d: Sched, running: seq<Assigned>, hs: seq<Handler>, r: Request, i: nat)
    requires u.Valid() && i < |d.workers| && ConservedWith(u, t, d, running, hs, r)
    ensures Conserved(u, t, Assign(d, i, r), running + [Assigned(d.workers[i].id, r)], hs)
  {
    var d', j := Assign(d, i, r), Assigned(d.workers[i].id, r);
    hide IsReady, IsStored, Jobs, Handlers, Count, Asked;
    forall n: Node | n.level >= 1 ensures Whereabouts(u, t, d', running + [j], hs, n) == Bit(IsReady(u, t, n)) {
      JobsConcat(u, running, [j], Asking(n));
      JobsOne(u, j, Asking(n));
      assert Whereabouts(u, t, d, running, hs, n) + Bit(Asked(u, r) == n) == Bit(IsReady(u, t, n));
    }
  }

  lemma AssignSlotsMatch(u: Setup, d: Sched, running: seq<Assigned>, hs: seq<Handler>, r: Request, i: nat)
    requires u.Valid() && i < |d.workers| && SlotsMatch(u, d, running, hs) && d.workers[i].id == i
    ensures SlotsMatch(u, Assign(d, i, r), running + [Assigned(d.workers[i].id, r)], hs)
  {
    var d', j := Assign(d, i, r), Assigned(d.workers[i].id, r);
    hide Jobs, Handlers, Asked;
    forall w: nat, x: ActiveProof | w < |d'.workers| ensures SlotCount(d', w, x) == ExpectedSlots(u, d', running + [j], hs, w, x) {
      AssignSlots(d, i, r, w, x);
      JobsConcat(u, running, [j], SlotOn(w, x));
      JobsOne(u, j, SlotOn(w, x));
      assert Owes(u, d', w) <==> Owes(u, d, w);
      assert SlotCount(d, w, x) == ExpectedSlots(u, d, running, hs, w, x);
    }
  }

  lemma QueueCore(u: Setup, t: State, d: Sched, running: seq<Assigned>, hs: seq<Handler>, r: Request)
    requires u.Valid() && CoreWith(u, t, d, running, hs, r)
    ensures SchedCore(u, t, d.(pending := Insert(d.pending, r)), running, hs)
  {
    var d' := d.(pending := Insert(d.pending, r));
    FleetMoves(u, t, d, d', hs);
    InsertMembers(d.pending, r);
    QueueConserves(u, t, d, running, hs, r);
    QueueSlots(u, d, d', running, hs);
    hide Conserved, ConservedWith, SlotsMatch, AppsMatch, CountMatches, Good, Insert;
    assert WorkersOk(d');
  }

  lemma QueueConserves(u: Setup, t: State, d: Sched, running: seq<Assigned>, hs: seq<Handler>, r: Request)
    requires u.Valid() && ConservedWith(u, t, d, running, hs, r)
    ensures Conserved(u, t, d.(pending := Insert(d.pending, r)), running, hs)
  {
    var d' := d.(pending := Insert(d.pending, r));
    hide IsReady, IsStored, Jobs, Handlers, Count, Asked, Insert;
    forall n: Node | n.level >= 1 ensures Whereabouts(u, t, d', running, hs, n) == Bit(IsReady(u, t, n)) {
      CountInsert(u, d.pending, r, n);
      assert Whereabouts(u, t, d, running, hs, n) + Bit(Asked(u, r) == n) == Bit(IsReady(u, t, n));
    }
  }

  lemma QueueSlots(u: Setup, d: Sched, d': Sched, running: seq<Assigned>, hs: seq<Handler>)
    requires u.Valid() && SlotsMatch(u, d, running, hs) && d'.workers == d.workers && d'.numSegments == d.numSegments
    ensures SlotsMatch(u, d', running, hs)
  {
    hide Jobs, Handlers;
    forall w: nat, x: ActiveProof | w < |d'.workers| ensures SlotCount(d', w, x) == ExpectedSlots(u, d', running, hs, w, x) {
      assert SlotCount(d, w, x) == ExpectedSlots(u, d, running, hs, w, x);
    }
  }

  /** Before the count is known every STARK worker holds its marker, so a request can only queue. */
  lemma GateQueues(u: Setup, t: State, d: Sched, running: seq<Assigned>, hs: seq<Handler>, r: Request)
    requires u.Valid() && CoreWith(u, t, d, running, hs, r) && d.numSegments.None?
    ensures FindWorker(d, r.Step()).None?
  {
    var n := Asked(u, r);
    assert n.level >= 1;
    assert Whereabouts(u, t, d, running, hs, n) + Bit(Asked(u, r) == n) == Bit(IsReady(u, t, n));
    assert IsReady(u, t, n);
    if n.level >= 2 {
      NothingReadyAbove(u, t, n);
    }
    assert r.LeafRequest?;
    if FindWorker(d, LeafProve).Some? {
      var w := FindWorker(d, LeafProve).value;
      MarkerHeld(u, d, running, hs, w);
      FoundWorkerFits(d, r);
    }
  }

  lemma NothingReadyAbove(u: Setup, t: State, n: Node)
    requires u.Valid() && n.level >= 2 && t.leaves == map[] && t.internals == map[]
    ensures !IsReady(u, t, n)
  {
    NotReadyAboveLeaves(u.config, P(u), t, n);
  }

  lemma MarkerHeld(u: Setup, d: Sched, running: seq<Assigned>, hs: seq<Handler>, w: nat)
    requires u.Valid() && Fleet(u, d) && SlotsMatch(u, d, running, hs) && d.numSegments.None?
    requires w < |d.workers| && d.workers[w].role.RunsStarkProving()
    ensures MARKER in d.workers[w].active
  {
    hide Jobs, Handlers;
    assert SlotCount(d, w, MARKER) == ExpectedSlots(u, d, running, hs, w, MARKER);
  }

  /** Placing a request, on a worker or in the queue, restores the whole invariant. */
  lemma PlaceKeeps(u: Setup, t: State, d: Sched, running: seq<Assigned>, hs: seq<Handler>, r: Request)
    requires u.Valid() && CoreWith(u, t, d, running, hs, r)
    ensures var (d', a) := AssignOrQueue(d, r);
            SchedLive(u, t, d', running + (if a.Some? then [a.value] else []), hs)
  {
    var (d', a) := AssignOrQueue(d, r);
    if FindWorker(d, r.Step()).Some? {
      if d.numSegments.None? {
        GateQueues(u, t, d, running, hs, r);
      }
      hide CoreWith, SchedCore;
      AssignCore(u, t, d, running, hs, r);
    } else {
      GoodServiceable(u, d, r);
      QueuedMeansBusy(d, r);
      hide CoreWith, SchedCore;
      QueueCore(u, t, d, running, hs, r);
      assert running + [] == running;
    }
  }

  lemma TryDequeueKeeps(u: Setup, t: State, d: Sched, running: seq<Assigned>, hs: seq<Handler>)
    requires u.Valid() && SchedCore(u, t, d, running, hs)
    ensures var (d', a) := TryDequeue(d);
            SchedLive(u, t, d', running + (if a.Some? then [a.value] else []), hs)
  {
    if d.pending == [] {
      assert running + [] == running;
    } else {
      var r, rest := d.pending[0], d.(pending := d.pending[1..]);
      DequeuedHead(u, t, d, running, hs);
      PlaceKeeps(u, t, rest, running, hs, r);
      assert TryDequeue(d) == AssignOrQueue(rest, r) by { hide Insert, FindWorker, Slot; }
    }
  }

  lemma DequeuedHead(u: Setup, t: State, d: Sched, running: seq<Assigned>, hs: seq<Handler>)
    requires u.Valid() && SchedCore(u, t, d, running, hs) && d.pending != []
    ensures CoreWith(u, t, d.(pending := d.pending[1..]), running, hs, d.pending[0])
  {
    var r, rest := d.pending[0], d.(pending := d.pending[1..]);
    FleetMoves(u, t, d, rest, hs);
    QueueSlots(u, d, rest, running, hs);
    hide IsReady, IsStored, Jobs, Handlers, Count, Asked, SlotsMatch, AppsMatch, CountMatches, Good;
    assert r in d.pending;
    assert WorkersOk(rest);
    assert AllGood(u, rest.pending);
    forall n: Node | n.level >= 1 ensures Whereabouts(u, t, rest, running, hs, n) + Bit(Asked(u, r) == n) == Bit(IsReady(u, t, n)) {
      CountHead(u, d.pending, n);
      assert Whereabouts(u, t, d, running, hs, n) == Bit(IsReady(u, t, n));
    }
  }

  lemma LiveIsCore(u: Setup, t: State, d: Sched, running: seq<Assigned>, hs: seq<Handler>)
    requires u.Valid() && SchedLive(u, t, d, running, hs)
    ensures SchedCore(u, t, d, running, hs) && WillWake(d)
  {
  }

  lemma {:induction false} DrainKeeps(u: Setup, t: State, d: Sched, running: seq<Assigned>, hs: seq<Handler>)
    requires u.Valid() && SchedCore(u, t, d, running, hs)
    ensures var (d', a) := DrainPending(d); SchedLive(u, t, d', running + a, hs)
    decreases |d.pending|
  {
    hide TryDequeue, DrainPending, SchedCore, SchedLive;
    var (d', a) := TryDequeue(d);
    TryDequeueKeeps(u, t, d, running, hs);
    DrainUnfolds(d);
    if a.Some? {
      LiveIsCore(u, t, d', running + [a.value], hs);
      DrainKeeps(u, t, d', running + [a.value], hs);
      assert running + [a.value] + DrainPending(d').1 == running + ([a.value] + DrainPending(d').1);
    }
  }

  // ---- phase 3 ----

  lemma EnqueueKeepsSched(u: Setup, s: Sys, i: nat)
    requires u.Valid() && SchedOk(s) && s.sched.Some? && SchedLive(u, s.tree, s.sched.value, s.running, s.handlers)
    requires i < |s.handlers| && s.handlers[i].followUps != [] && AllGood(u, s.handlers[i].followUps)
    ensures var s' := EnqueueOne(s, i); SchedLive(u, s'.tree, s'.sched.value, s'.running, s'.handlers)
  {
    var h := s.handlers[i];
    var r, h' := h.followUps[0], h.(followUps := h.followUps[1..]);
    var hs' := s.handlers[i := h'];
    FollowUpInHand(u, s.tree, s.sched.value, s.running, s.handlers, i);
    PlaceKeeps(u, s.tree, s.sched.value, s.running, hs', r);
    hide SchedLive, CoreWith, AssignOrQueue;
  }

  lemma FollowUpInHand(u: Setup, t: State, d: Sched, running: seq<Assigned>, hs: seq<Handler>, i: nat)
    requires u.Valid() && SchedCore(u, t, d, running, hs)
    requires i < |hs| && hs[i].followUps != [] && AllGood(u, hs[i].followUps)
    ensures CoreWith(u, t, d, running, hs[i := hs[i].(followUps := hs[i].followUps[1..])], hs[i].followUps[0])
  {
    var h := hs[i];
    var r, h' := h.followUps[0], h.(followUps := h.followUps[1..]);
    var hs' := hs[i := h'];
    UpdateMessages(u, t, d, running, hs, i, h');
    hide IsReady, IsStored, Jobs, Handlers, Count, Asked, SlotsMatch, AppsMatch, CountMatches, WorkersOk, Good;
    assert r in h.followUps;
    assert Gate(t, d, running, hs');
    forall n: Node | n.level >= 1 ensures Whereabouts(u, t, d, running, hs', n) + Bit(Asked(u, r) == n) == Bit(IsReady(u, t, n)) {
      CountHead(u, h.followUps, n);
      HandlersUpdate(u, hs, i, h', Asking(n));
      assert HandlerWeight(u, h, Asking(n)) == Count(u, h.followUps, n);
      assert HandlerWeight(u, h', Asking(n)) == Count(u, h'.followUps, n);
      assert Whereabouts(u, t, d, running, hs, n) == Bit(IsReady(u, t, n));
    }
  }

  /** Changing only a handler's follow-ups moves no slot and no message. */
  lemma UpdateMessages(u: Setup, t: State, d: Sched, running: seq<Assigned>, hs: seq<Handler>, i: nat, h': Handler)
    requires u.Valid() && i < |hs| && h' == hs[i].(followUps := h'.followUps)
    requires SlotsMatch(u, d, running, hs) && AppsMatch(u, t, d, hs) && CountMatches(u, t, d, hs)
    ensures SlotsMatch(u, d, running, hs[i := h']) && AppsMatch(u, t, d, hs[i := h']) && CountMatches(u, t, d, hs[i := h'])
  {
    hide Jobs, Handlers;
    var hs' := hs[i := h'];
    forall w: nat, x: ActiveProof | w < |d.workers| ensures SlotCount(d, w, x) == ExpectedSlots(u, d, running, hs', w, x) {
      HandlersUpdate(u, hs, i, h', SlotOn(w, x));
      assert SlotCount(d, w, x) == ExpectedSlots(u, d, running, hs, w, x);
    }
    forall k: nat | k < u.segments ensures AppAccounted(u, t, d, hs', k) {
      HandlersUpdate(u, hs, i, h', AppFrom(k));
      assert AppAccounted(u, t, d, hs, k);
    }
    HandlersUpdate(u, hs, i, h', CountMessage);
  }
}
