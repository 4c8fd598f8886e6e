/** A worker that runs the EVM step runs nothing else, in every state of every run. The leaf
  * path never looks for an active EVM step, so this does not follow from one operation: it
  * holds because the tree is complete below the EVM step by the time it is asked for. */
module EvmIsolation {
  import opened Protocol
  import opened TreePlan
  import opened PriorityQueue
  import opened ProofDriver
  import opened DriverRefinement
  import opened Scheduler
  import opened SchedulerFacts
  import opened Manager
  import opened ManagerCounting
  import opened ManagerInvariant
  import opened ReceiveEvents
  import opened DispatchPhases
  import opened AccountPhaseProof
  import opened InvariantHolds
  import opened Safety

  const EVM_SLOT: ActiveProof := ActiveProof(EvmProve, None)

  ghost function EvmNode(u: Setup): Node
    requires u.Valid()
  {
    Node(P(u).Top() + 1, 0)
  }

  ghost predicate AloneIfEvm(w: Worker) {
    EVM_SLOT in w.active ==> w.active == [EVM_SLOT]
  }

  ghost predicate EvmAlone(u: Setup, t: State, d: Sched)
    requires u.Valid()
  {
    forall w :: 0 <= w < |d.workers| ==> AloneIfEvm(d.workers[w]) && (EVM_SLOT in d.workers[w].active ==> IsReady(u, t, EvmNode(u)))
  }

  /** While a request for a leaf is in hand, the EVM step cannot have been asked for. */
  lemma LeafBeforeEvm(u: Setup, t: State, d: Sched, running: seq<Assigned>, hs: seq<Handler>, r: Request)
    requires u.Valid() && IsTreeOk(u, t) && CoreWith(u, t, d, running, hs, r) && r.LeafRequest?
    ensures !IsReady(u, t, EvmNode(u))
  {
    InHandNotStored(u, t, d, running, hs, r);
    GoodLeaf(u, r);
    hide CoreWith, IsReady, IsTreeOk, IsStored, Asked, Good;
    EvmReadyStoresLeaf(u, t, Asked(u, r));
  }

  lemma InHandNotStored(u: Setup, t: State, d: Sched, running: seq<Assigned>, hs: seq<Handler>, r: Request)
    requires u.Valid() && CoreWith(u, t, d, running, hs, r)
    ensures Good(u, r) && !IsStored(u, t, Asked(u, r))
  {
    var n := Asked(u, r);
    assert n.level >= 1;
    hide IsReady, IsStored, WorkersOk, Asked;
    assert Whereabouts(u, t, d, running, hs, n) + Bit(Asked(u, r) == n) == Bit(IsReady(u, t, n));
  }

  lemma GoodLeaf(u: Setup, r: Request)
    requires u.Valid() && Good(u, r) && r.LeafRequest?
    ensures Asked(u, r).level == 1 && Asked(u, r).idx < P(u).Width(1)
  {
  }

  lemma EvmReadyStoresLeaf(u: Setup, t: State, n: Node)
    requires u.Valid() && IsTreeOk(u, t) && n.level == 1 && n.idx < P(u).Width(1)
    ensures IsReady(u, t, EvmNode(u)) ==> IsStored(u, t, n)
  {
    if IsReady(u, t, EvmNode(u)) {
      EvmReadyMeansTop(u, t);
      TopMeansBelow(u, t, n);
    }
  }

  /** A request in hand is for a ready node. */
  lemma InHandIsReady(u: Setup, t: State, d: Sched, running: seq<Assigned>, hs: seq<Handler>, r: Request)
    requires u.Valid() && CoreWith(u, t, d, running, hs, r)
    ensures IsReady(u, t, Asked(u, r))
  {
    var n := Asked(u, r);
    assert n.level >= 1;
    hide IsReady, IsStored;
    assert Whereabouts(u, t, d, running, hs, n) + Bit(Asked(u, r) == n) == Bit(IsReady(u, t, n));
  }

  // ---- each operation ----

  lemma AssignAlone(u: Setup, t: State, d: Sched, running: seq<Assigned>, hs: seq<Handler>, r: Request)
    requires u.Valid() && IsTreeOk(u, t) && CoreWith(u, t, d, running, hs, r) && EvmAlone(u, t, d)
    requires FindWorker(d, r.Step()).Some?
    ensures EvmAlone(u, t, Assign(d, FindWorker(d, r.Step()).value, r))
  {
    var i := FindWorker(d, r.Step()).value;
    FoundWorkerFits(d, r);
    InHandIsReady(u, t, d, running, hs, r);
    if r.LeafRequest? {
      LeafBeforeEvm(u, t, d, running, hs, r);
    }
    hide CoreWith, IsReady, IsTreeOk, FindWorker;
    assert Assign(d, i, r).workers[i].active == d.workers[i].active + [Slot(r)];
  }

  lemma PlaceAlone(u: Setup, t: State, d: Sched, running: seq<Assigned>, hs: seq<Handler>, r: Request)
    requires u.Valid() && IsTreeOk(u, t) && CoreWith(u, t, d, running, hs, r) && EvmAlone(u, t, d)
    ensures EvmAlone(u, t, AssignOrQueue(d, r).0)
  {
    if FindWorker(d, r.Step()).Some? {
      AssignAlone(u, t, d, running, hs, r);
    }
    hide CoreWith, IsReady, IsTreeOk, FindWorker, Assign, AloneIfEvm;
  }

  lemma TryDequeueAlone(u: Setup, t: State, d: Sched, running: seq<Assigned>, hs: seq<Handler>)
    requires u.Valid() && IsTreeOk(u, t) && SchedCore(u, t, d, running, hs) && EvmAlone(u, t, d)
    ensures EvmAlone(u, t, TryDequeue(d).0)
  {
    if d.pending != [] {
      var r, rest := d.pending[0], d.(pending := d.pending[1..]);
      DequeuedHead(u, t, d, running, hs);
      hide SchedCore, CoreWith, IsReady, IsTreeOk;
      PlaceAlone(u, t, rest, running, hs, r);
      assert TryDequeue(d) == AssignOrQueue(rest, r) by { hide Insert, FindWorker, Slot; }
    }
  }

  lemma {:induction false} DrainAlone(u: Setup, t: State, d: Sched, running: seq<Assigned>, hs: seq<Handler>)
    requires u.Valid() && IsTreeOk(u, t) && SchedCore(u, t, d, running, hs) && EvmAlone(u, t, d)
    ensures EvmAlone(u, t, DrainPending(d).0)
    decreases |d.pending|
  {
    hide TryDequeue, DrainPending, SchedCore, SchedLive, IsTreeOk, EvmAlone;
    var (d', a) := TryDequeue(d);
    TryDequeueAlone(u, t, d, running, hs);
    TryDequeueKeeps(u, t, d, running, hs);
    DrainUnfolds(d);
    if a.Some? {
      LiveIsCore(u, t, d', running + [a.value], hs);
      DrainAlone(u, t, d', running + [a.value], hs);
    }
  }

  lemma FreeSlotAlone(w: Worker, step: Step)
    requires AloneIfEvm(w)
    ensures AloneIfEvm(FreeSlot(w, step)) && (EVM_SLOT in FreeSlot(w, step).active ==> EVM_SLOT in w.active)
  {
    RemoveFirstMembers(w.active, step);
    if EVM_SLOT in w.active {
      assert RemoveFirst([EVM_SLOT], step) == if step.EvmProve? then [] else [EVM_SLOT] by {
        assert [EVM_SLOT][1..] == [];
      }
    }
  }

  lemma {:induction false} WithoutMarkersMembers(active: seq<ActiveProof>)
    ensures forall x :: x in WithoutMarkers(active) ==> x in active
  {
    if active != [] {
      WithoutMarkersMembers(active[1..]);
    }
  }

  lemma ReleaseMarkerAlone(w: Worker)
    requires AloneIfEvm(w)
    ensures AloneIfEvm(ReleaseMarker(w)) && (EVM_SLOT in ReleaseMarker(w).active ==> EVM_SLOT in w.active)
  {
    WithoutMarkersMembers(w.active);
    if EVM_SLOT in w.active {
      assert WithoutMarkers([EVM_SLOT]) == [EVM_SLOT] by {
        assert [EVM_SLOT][1..] == [];
      }
    }
  }

  lemma CompleteOnAlone(w: Worker, r: ProofResult, numWorkers: nat, total: Option<nat>)
    requires AloneIfEvm(w) && numWorkers > 0 && !r.ErrorResult?
    ensures var v := CompleteOn(w, r, numWorkers, total).0; AloneIfEvm(v) && (EVM_SLOT in v.active ==> EVM_SLOT in w.active)
  {
    FreeSlotAlone(w, LeafProve);
    FreeSlotAlone(w, InternalProve);
    FreeSlotAlone(w, EvmProve);
    if r.AppResult? {
      ReleaseMarkerAlone(w.(completed := w.completed + {r.app.segmentIdx}));
    }
    hide FreeSlot, ReleaseMarker, CompletedAllSegments;
  }

  lemma CountedAlone(u: Setup, t: State, d: Sched, n: nat)
    requires u.Valid() && EvmAlone(u, t, d) && d.numWorkers > 0
    ensures EvmAlone(u, t, Counted(d, n))
  {
    hide IsReady, ReleasedByCount, ReleaseMarker;
    forall w | 0 <= w < |d.workers|
      ensures AloneIfEvm(Counted(d, n).workers[w])
      ensures EVM_SLOT in Counted(d, n).workers[w].active ==> EVM_SLOT in d.workers[w].active
    {
      ReleaseMarkerAlone(d.workers[w]);
    }
  }

  lemma CompletedAlone(u: Setup, t: State, d: Sched, h: Handler)
    requires u.Valid() && EvmAlone(u, t, d) && d.numWorkers > 0 && h.worker < |d.workers| && !h.result.ErrorResult?
    ensures EvmAlone(u, t, d.(workers := d.workers[h.worker := CompleteOn(d.workers[h.worker], h.result, d.numWorkers, d.numSegments).0]))
  {
    CompleteOnAlone(d.workers[h.worker], h.result, d.numWorkers, d.numSegments);
    hide IsReady, CompleteOn, AloneIfEvm;
  }

  // ---- accounting ----

  lemma AccountJobAlone(u: Setup, t: State, d: Sched, running: seq<Assigned>, hs: seq<Handler>, i: nat)
    requires u.Valid() && IsTreeOk(u, t) && d.numWorkers > 0 && SchedLive(u, t, d, running, hs) && EvmAlone(u, t, d)
    requires i < |hs| && !hs[i].accounted && !hs[i].sealed && SlotOfResult(hs[i].result).Some? && hs[i].worker < |d.workers|
    ensures EvmAlone(u, t, AccountOn(d, hs[i]).0)
  {
    LiveIsCore(u, t, d, running, hs);
    CoreToPieces(u, t, d, running, hs);
    hide SchedCore, SchedLive, AccountOn, TryDequeue, WorkersOk, TickedOff, EvmAlone, IsTreeOk;
    var x := SlotOfResult(hs[i].result).value;
    JobCore(u, t, d, running, hs, i, x);
    CompletedAlone(u, t, d, hs[i]);
    FreedIsCompleted(d, hs[i]);
    hide Freed, CompleteOn;
    TryDequeueAlone(u, t, Freed(d, hs[i].worker, x.step), running, TickedOff(hs, i));
    AccountJobEffect(d, hs[i]);
  }

  lemma FreedIsCompleted(d: Sched, h: Handler)
    requires d.numWorkers > 0 && h.worker < |d.workers| && SlotOfResult(h.result).Some?
    ensures Freed(d, h.worker, SlotOfResult(h.result).value.step) ==
            d.(workers := d.workers[h.worker := CompleteOn(d.workers[h.worker], h.result, d.numWorkers, d.numSegments).0])
  {
    hide FreeSlot;
  }

  lemma AccountAppAlone(u: Setup, t: State, d: Sched, running: seq<Assigned>, hs: seq<Handler>, i: nat)
    requires u.Valid() && IsTreeOk(u, t) && d.numWorkers > 0 && SchedLive(u, t, d, running, hs) && EvmAlone(u, t, d)
    requires i < |hs| && !hs[i].accounted && !hs[i].sealed && hs[i].worker < |d.workers|
    requires hs[i].result.AppResult? && hs[i].result.app.segmentIdx < u.segments
    requires hs[i].worker == hs[i].result.app.segmentIdx % u.StarkWorkers()
    ensures EvmAlone(u, t, AccountOn(d, hs[i]).0)
  {
    LiveIsCore(u, t, d, running, hs);
    CoreToPieces(u, t, d, running, hs);
    var k := hs[i].result.app.segmentIdx;
    hide SchedCore, SchedLive, AccountOn, TryDequeue, WorkersOk, TickedOff, EvmAlone, IsTreeOk;
    AppCore(u, t, d, running, hs, i, k);
    CompletedAlone(u, t, d, hs[i].(result := AppResult(AppState(k, None, None, None))));
    AccountAppEffect(d, hs[i]);
    hide CompleteOn;
    if CompleteOn(d.workers[hs[i].worker], AppResult(AppState(k, None, None, None)), d.numWorkers, d.numSegments).1 {
      TryDequeueAlone(u, t, Received(d, hs[i].worker, k), running, TickedOff(hs, i));
    }
  }

  lemma AccountCountAlone(u: Setup, t: State, d: Sched, running: seq<Assigned>, hs: seq<Handler>, i: nat)
    requires u.Valid() && IsTreeOk(u, t) && d.numWorkers > 0 && SchedLive(u, t, d, running, hs) && EvmAlone(u, t, d)
    requires i < |hs| && !hs[i].accounted && hs[i].result.ExecuteE2Result? && hs[i].result.numSegments == u.segments
    ensures EvmAlone(u, t, AccountOn(d, hs[i]).0)
  {
    LiveIsCore(u, t, d, running, hs);
    hide SchedCore, AccountOn, DrainPending, TickedOff, SomeReleased, WillWake, EvmAlone, IsTreeOk, SchedLive;
    CountedCore(u, t, d, running, hs, i);
    CountedAlone(u, t, d, u.segments);
    AccountCountEffect(d, hs[i]);
    hide Counted;
    if SomeReleased(d.workers, u.segments, d.numWorkers) {
      DrainAlone(u, t, Counted(d, u.segments), running, TickedOff(hs, i));
    }
  }

  lemma AccountAlone(u: Setup, t: State, d: Sched, running: seq<Assigned>, hs: seq<Handler>, i: nat)
    requires u.Valid() && IsTreeOk(u, t) && d.numWorkers > 0 && SchedLive(u, t, d, running, hs) && EvmAlone(u, t, d)
    requires HandlersOk(u, t, hs) && i < |hs| && !hs[i].accounted && !hs[i].sealed
    ensures EvmAlone(u, t, AccountOn(d, hs[i]).0)
  {
    var h := hs[i];
    assert HandlerOk(u, t, h);
    assert h.worker < |d.workers|;
    hide SchedLive, AccountOn, AllGood, EvmAlone, IsTreeOk;
    match h.result
    case AppResult(_) => AccountAppAlone(u, t, d, running, hs, i);
    case ExecuteE2Result(_, _) => AccountCountAlone(u, t, d, running, hs, i);
    case LeafResult(_) => AccountJobAlone(u, t, d, running, hs, i);
    case InternalResult(_) => AccountJobAlone(u, t, d, running, hs, i);
    case EvmResult(_) => AccountJobAlone(u, t, d, running, hs, i);
    case ErrorResult(_, _) =>
  }

  // ---- whole runs ----

  ghost predicate Isolated(u: Setup, s: Sys)
    requires u.Valid()
  {
    s.tree.status.InProgress? && s.sched.Some? ==> EvmAlone(u, s.tree, s.sched.value)
  }

  /** Ready nodes stay ready: the history of requests only grows. */
  lemma ReadyStays(u: Setup, s: Sys, s': Sys, f: seq<Request>, n: Node)
    requires u.Valid() && HistoryExact(u, s.tree, s.requested) && HistoryExact(u, s'.tree, s'.requested) && s'.requested == s.requested + f
    ensures IsReady(u, s.tree, n) ==> IsReady(u, s'.tree, n)
  {
    CountConcat(u, s.requested, f, n);
    hide IsReady, Count, Good;
    assert Count(u, s.requested, n) == Bit(IsReady(u, s.tree, n));
  }

  lemma SameSchedIsolated(u: Setup, s: Sys, s': Sys, f: seq<Request>)
    requires u.Valid() && Inv(u, s) && Inv(u, s') && Isolated(u, s) && s.tree.status.InProgress?
    requires s'.tree.status.InProgress? ==> s'.requested == s.requested + f && (s'.sched.Some? ==> s'.sched == s.sched)
    ensures Isolated(u, s')
  {
    if s'.tree.status.InProgress? {
      hide IsReady, AloneIfEvm, Count, SchedLive, IsTreeOk, ReadyForFinalization;
      ReadyStays(u, s, s', f, EvmNode(u));
    }
  }

  /** Receiving leaves a live scheduler alone. */
  lemma ReceiveKeepsSched(u: Setup, s: Sys, worker: nat, r: ProofResult) returns (f: seq<Request>)
    requires u.config.Valid() && SchedOk(s) && s.tree.status.InProgress?
    ensures var s' := Receive(u, s, worker, r); s'.sched == s.sched && s'.requested == s.requested + f
  {
    var outcome := HandleEnvelope(u.config, s.tree, r).1;
    f := if outcome.Processed? then outcome.followUps else [];
    hide HandleProofResult;
    assert s.requested + [] == s.requested;
  }

  lemma DeliveryIsolated(u: Setup, s: Sys, e: Event)
    requires u.Valid() && SchedOk(s) && Inv(u, s) && Isolated(u, s) && s.tree.status.InProgress? && Enabled(u, s, e)
    requires Delivers(e) && Inv(u, Do(u, s, e))
    ensures Isolated(u, Do(u, s, e))
  {
    hide Inv, Isolated, Receive, Sender, Sent;
    var f := ReceiveKeepsSched(u, Found(u, s, e), Sender(u, s, e), Sent(u, s, e));
    SameSchedIsolated(u, s, Do(u, s, e), f);
  }

  lemma AbortIsolated(u: Setup, s: Sys, e: Event)
    requires u.Valid() && SchedOk(s) && Inv(u, s) && Isolated(u, s) && s.tree.status.InProgress?
    requires (e.Abort? || e.CancelProof?) && Inv(u, Do(u, s, e))
    ensures Isolated(u, Do(u, s, e))
  {
    assert s.requested + [] == s.requested;
    hide Inv, Isolated;
    SameSchedIsolated(u, s, Do(u, s, e), []);
  }

  lemma EventKeepsIsolated(u: Setup, s: Sys, e: Event)
    requires u.Valid() && SchedOk(s) && Inv(u, s) && Isolated(u, s) && Enabled(u, s, e)
    ensures Isolated(u, Do(u, s, e))
  {
    EventKeepsInv(u, s, e);
    if !s.tree.status.InProgress? {
      hide Inv, EvmAlone, Do;
      SettledStays(u, s, e);
    } else {
      hide Inv, Isolated, Do;
      match e
      case Account(i, saved) => AccountIsolated(u, s, i, saved);
      case Enqueue(i) => EnqueueIsolated(u, s, i);
      case Abort(_, _) => AbortIsolated(u, s, e);
      case CancelProof => AbortIsolated(u, s, e);
      case DrainFailing(_) =>
      case _ => DeliveryIsolated(u, s, e);
    }
  }

  lemma AccountIsolated(u: Setup, s: Sys, i: nat, saved: bool)
    requires u.Valid() && SchedOk(s) && Inv(u, s) && Isolated(u, s) && s.tree.status.InProgress? && Enabled(u, s, Account(i, saved))
    ensures Isolated(u, Do(u, s, Account(i, saved)))
  {
    assert Running(u, s);
    if s.handlers[i].sealed {
      SealedAccounted(u, s, i, saved);
    } else if s.sched.Some? {
      AccountAlone(u, s.tree, s.sched.value, s.running, s.handlers, i);
      hide AccountOn, EvmAlone, Inv, Running;
    }
  }

  lemma EnqueueIsolated(u: Setup, s: Sys, i: nat)
    requires u.Valid() && SchedOk(s) && Inv(u, s) && Isolated(u, s) && s.tree.status.InProgress? && Enabled(u, s, Enqueue(i))
    ensures Isolated(u, Do(u, s, Enqueue(i)))
  {
    if s.sched.Some? {
      var h := s.handlers[i];
      assert HandlerOk(u, s.tree, h);
      LiveIsCore(u, s.tree, s.sched.value, s.running, s.handlers);
      hide SchedCore, AssignOrQueue, EvmAlone, IsTreeOk, CoreWith;
      FollowUpInHand(u, s.tree, s.sched.value, s.running, s.handlers, i);
      PlaceAlone(u, s.tree, s.sched.value, s.running, s.handlers[i := h.(followUps := h.followUps[1..])], h.followUps[0]);
    }
  }

  lemma {:induction false} RunKeepsIsolated(u: Setup, events: seq<Event>)
    requires u.Valid()
    ensures Isolated(u, Run(u, events))
  {
    hide Inv, Do, Enabled, Isolated;
    if events == [] {
      NothingAtFirst(u);
    } else {
      var before, e := Run(u, events[..|events| - 1]), events[|events| - 1];
      RunKeepsIsolated(u, events[..|events| - 1]);
      RunKeepsInv(u, events[..|events| - 1]);
      if Enabled(u, before, e) {
        EventKeepsIsolated(u, before, e);
      }
    }
  }

  lemma NothingAtFirst(u: Setup)
    requires u.Valid()
    ensures Isolated(u, Init(u))
  {
    InitWorkersOk(u);
    hide IsReady;
  }

  /** A worker that holds the EVM step holds nothing else. */
  lemma EvmWorkerIsAlone(u: Setup, events: seq<Event>, w: nat)
    requires u.Valid()
    requires var s := Run(u, events); s.tree.status.InProgress? && s.sched.Some? && w < |s.sched.value.workers|
    ensures var active := Run(u, events).sched.value.workers[w].active; EVM_SLOT in active ==> active == [EVM_SLOT]
  {
    RunKeepsIsolated(u, events);
    hide Run, IsReady;
  }

  // ---- what other workers still hold ----

  ghost predicate EvmAsked(u: Setup, s: Sys)
    requires u.Valid()
  {
    s.tree.status.InProgress? && s.sched.Some? && Count(u, s.requested, EvmNode(u)) > 0
  }

  ghost predicate AllEvm(running: seq<Assigned>) {
    forall j :: j in running ==> j.request.EvmRequest?
  }

  lemma RunIsRunning(u: Setup, events: seq<Event>)
    requires u.Valid() && Run(u, events).tree.status.InProgress?
    ensures Running(u, Run(u, events))
  {
    RunKeepsInv(u, events);
    hide Run;
  }

  /** Once the EVM step has been asked for, it is the only kind of job running. */
  lemma OnlyEvmRuns(u: Setup, events: seq<Event>, j: nat)
    requires u.Valid() && EvmAsked(u, Run(u, events)) && j < |Run(u, events).running|
    ensures Run(u, events).running[j].request.EvmRequest?
  {
    hide Run, Asked, Jobs, Handlers, Count, IsStored, IsReady, Running, Good, AsksFor, InTree, ReadyForFinalization;
    var s := Run(u, events);
    var r := s.running[j].request;
    RunIsRunning(u, events);
    RunningJobIsDue(u, s, j);
    JobLevel(u, r);
    JobsRemove(u, s.running, j, Asking(Asked(u, r)));
    assert JobWeight(u, s.running[j], Asking(Asked(u, r))) == 1;
    if Asked(u, r) != EvmNode(u) {
      EvmIsAlone(u, events, Asked(u, r));
    }
  }

  lemma JobLevel(u: Setup, r: Request)
    requires u.Valid() && AsksFor(u.config, P(u), r, Asked(u, r))
    ensures Asked(u, r).level == P(u).Top() + 1 ==> r.EvmRequest?
  {
    hide Asked, Plan.Children, Plan.SegmentStart, Plan.SegmentEnd, TailOk, Plan.Width, Plan.Proof;
  }

  lemma {:induction false} EvmJobsHoldEvmSlots(u: Setup, running: seq<Assigned>, w: nat, x: ActiveProof)
    requires u.Valid() && AllEvm(running) && x != EVM_SLOT
    ensures Jobs(u, running, SlotOn(w, x)) == 0
  {
    if running != [] {
      EvmJobsHoldEvmSlots(u, running[..|running| - 1], w, x);
      assert running[|running| - 1] in running;
    }
  }

  /** Once the EVM step has been asked for, every other slot on any worker belongs to a received
    * result that is not yet accounted for. */
  lemma OtherSlotsAreReceived(u: Setup, events: seq<Event>, w: nat, x: ActiveProof)
    requires u.Valid() && EvmAsked(u, Run(u, events)) && w < |Run(u, events).sched.value.workers|
    requires x != EVM_SLOT && x != MARKER
    ensures SlotCount(Run(u, events).sched.value, w, x) == Handlers(u, Run(u, events).handlers, SlotOn(w, x))
  {
    var s := Run(u, events);
    RunKeepsInv(u, events);
    forall j | j in s.running ensures j.request.EvmRequest? {
      var k :| 0 <= k < |s.running| && s.running[k] == j;
      OnlyEvmRuns(u, events, k);
    }
    hide Run;
    LiveIsCore(u, s.tree, s.sched.value, s.running, s.handlers);
    CoreToPieces(u, s.tree, s.sched.value, s.running, s.handlers);
    hide SchedCore, SchedLive, WorkersOk, Jobs, Handlers, Owes, Count;
    EvmJobsHoldEvmSlots(u, s.running, w, x);
    assert SlotCount(s.sched.value, w, x) == ExpectedSlots(u, s.sched.value, s.running, s.handlers, w, x);
  }

  /** And a marker is held exactly by a worker of whose app results one is received and not yet
    * accounted for. */
  lemma HeldMarkersAreReceived(u: Setup, events: seq<Event>, w: nat)
    requires u.Valid() && EvmAsked(u, Run(u, events)) && w < u.StarkWorkers()
    ensures w < |Run(u, events).sched.value.workers|
    ensures MARKER in Run(u, events).sched.value.workers[w].active <==>
              exists i: nat :: i < u.segments && i % u.StarkWorkers() == w && Handlers(u, Run(u, events).handlers, AppFrom(i)) > 0
  {
    var s := Run(u, events);
    var d := s.sched.value;
    RunKeepsInv(u, events);
    MarkerGoneIffShardDone(u, events, w);
    hide Run;
    LiveIsCore(u, s.tree, d, s.running, s.handlers);
    CoreToPieces(u, s.tree, d, s.running, s.handlers);
    CountKnownByEvm(u, s);
    hide SchedCore, SchedLive, WorkersOk, Handlers, Count, IsStored, IsTreeOk;
    forall i: nat | i < u.segments && i % u.StarkWorkers() == w
      ensures Handlers(u, s.handlers, AppFrom(i)) > 0 <==> i !in d.workers[w].completed
    {
      AppsInByEvm(u, s, i);
      assert AppAccounted(u, s.tree, d, s.handlers, i);
    }
  }

  lemma AppsInByEvm(u: Setup, s: Sys, i: nat)
    requires u.Valid() && IsTreeOk(u, s.tree) && HistoryExact(u, s.tree, s.requested) && EvmAsked(u, s) && i < u.segments
    ensures i in s.tree.apps
  {
    EvmAskedMeansTop(u, s);
    WidthZero(P(u));
    TopMeansBelow(u, s.tree, Node(0, i));
  }

  lemma CountKnownByEvm(u: Setup, s: Sys)
    requires u.Valid() && EvmAsked(u, s) && Gate(s.tree, s.sched.value, s.running, s.handlers) && HistoryExact(u, s.tree, s.requested)
    requires s.sched.value.numSegments.Some? ==> s.sched.value.numSegments.value == u.segments
    ensures s.sched.value.numSegments == Some(u.segments)
  {
    EvmAskedMeansTop(u, s);
    hide Count;
  }

  lemma {:induction false} AccountedHoldNothing(u: Setup, hs: seq<Handler>, m: Measure)
    requires u.Valid() && (forall h :: h in hs ==> h.accounted) && !m.Asking?
    ensures Handlers(u, hs, m) == 0
  {
    if hs != [] {
      AccountedHoldNothing(u, hs[..|hs| - 1], m);
      assert hs[|hs| - 1] in hs;
    }
  }

  /** So once every received result is accounted for, no worker holds anything but the EVM step. */
  lemma EvmIsAllThatIsHeld(u: Setup, events: seq<Event>, w: nat, x: ActiveProof)
    requires u.Valid() && EvmAsked(u, Run(u, events)) && w < |Run(u, events).sched.value.workers|
    requires forall h :: h in Run(u, events).handlers ==> h.accounted
    requires x in Run(u, events).sched.value.workers[w].active
    ensures x == EVM_SLOT
  {
    var s := Run(u, events);
    RunKeepsInv(u, events);
    hide Run;
    LiveIsCore(u, s.tree, s.sched.value, s.running, s.handlers);
    CoreToPieces(u, s.tree, s.sched.value, s.running, s.handlers);
    hide SchedCore, SchedLive, Handlers, Count, Jobs;
    if x == MARKER {
      MarkerNeedsStark(u, s.sched.value, s.running, s.handlers, w);
      forall i: nat ensures Handlers(u, s.handlers, AppFrom(i)) == 0 {
        AccountedHoldNothing(u, s.handlers, AppFrom(i));
      }
      HeldMarkersAreReceived(u, events, w);
    } else if x != EVM_SLOT {
      AccountedHoldNothing(u, s.handlers, SlotOn(w, x));
      OtherSlotsAreReceived(u, events, w, x);
    }
  }

  lemma MarkerNeedsStark(u: Setup, d: Sched, running: seq<Assigned>, hs: seq<Handler>, w: nat)
    requires u.Valid() && SlotsMatch(u, d, running, hs) && w < |d.workers| && MARKER in d.workers[w].active
    ensures w < u.StarkWorkers()
  {
    NoJobHoldsMarker(u, running, w);
    NoResultHoldsMarker(u, hs, w);
    hide Jobs, Handlers;
    assert SlotCount(d, w, MARKER) == ExpectedSlots(u, d, running, hs, w, MARKER);
  }
}
