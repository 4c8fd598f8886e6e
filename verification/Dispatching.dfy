/** Exactly when work is dispatched. The scheduler says that no new work may start for a failing
  * proof, and drain-mode completion keeps to that; but a result received before the failure goes
  * on through its phases afterwards, and those never look at the status. */
module Dispatching {
  import opened Protocol
  import opened TreePlan
  import opened PriorityQueue
  import opened ProofDriver
  import opened DriverRefinement
  import opened Scheduler
  import opened SchedulerFacts
  import opened Manager
  import opened ManagerCounting
  import opened ManagerInvariant
  import opened ReceivePhase
  import opened ReceiveEvents
  import opened AccountPhaseProof
  import opened InvariantHolds
  import opened Sealing
  import opened ResultRules

  // ---- one event, in any state ----

  ghost predicate HandsBackSlot(d: Sched, h: Handler)
    requires d.numWorkers > 0
  {
    if h.result.ExecuteE2Result? then SomeReleased(d.workers, h.result.numSegments, d.numWorkers)
    else
      var done := ApplyCompletion(d, h.worker, h.result);
      !h.sealed && done.Applied? && done.freed
  }

  /** The scheduler once the result is accounted for, before any queued work is pulled. */
  ghost function HandedBack(d: Sched, h: Handler): Sched
    requires d.numWorkers > 0
  {
    if h.result.ExecuteE2Result? then Counted(d, h.result.numSegments)
    else
      var done := ApplyCompletion(d, h.worker, h.result);
      if !h.sealed && done.Applied? then done.sched else d
  }

  ghost predicate HeadAssignable(d: Sched) {
    d.pending != [] && FindWorker(d, d.pending[0].Step()).Some?
  }

  /** A follow-up is placed on a worker, or a slot is handed back that the head of the queue can take.
    * The status plays no part. */
  ghost predicate Dispatches(u: Setup, s: Sys, e: Event)
    requires SchedOk(s) && Enabled(u, s, e)
  {
    s.sched.Some? &&
    match e
    case Enqueue(i) => FindWorker(s.sched.value, s.handlers[i].followUps[0].Step()).Some?
    case Account(i, _) => HandsBackSlot(s.sched.value, s.handlers[i]) && HeadAssignable(HandedBack(s.sched.value, s.handlers[i]))
    case _ => false
  }

  ghost predicate NothingNew(before: seq<Assigned>, after: seq<Assigned>) {
    forall a :: a in after ==> a in before
  }

  lemma DequeueIff(d: Sched)
    ensures TryDequeue(d).1.Some? <==> HeadAssignable(d)
  {
    if d.pending != [] {
      QueueDoesNotChoose(d, d.pending[1..], d.pending[0].Step());
    }
    hide FindWorker, Insert;
  }

  lemma DrainIff(d: Sched)
    ensures DrainPending(d).1 != [] <==> HeadAssignable(d)
  {
    DequeueIff(d);
    DrainUnfolds(d);
    hide TryDequeue, HeadAssignable;
  }

  lemma AccountOnIff(d: Sched, h: Handler)
    requires d.numWorkers > 0
    ensures AccountOn(d, h).1 != [] <==> HandsBackSlot(d, h) && HeadAssignable(HandedBack(d, h))
  {
    if h.result.ExecuteE2Result? {
      AccountCountEffect(d, h);
      DrainIff(Counted(d, h.result.numSegments));
      hide DrainPending, Counted, HeadAssignable, AccountOn;
    } else {
      var done := ApplyCompletion(d, h.worker, h.result);
      if done.Applied? {
        DequeueIff(done.sched);
      }
      hide ApplyCompletion, TryDequeue, HeadAssignable;
    }
  }

  /** In any state, whatever its status: an event dispatches work if and only if it places a follow-up
    * or hands back a slot for the head of the queue; otherwise nothing new is running. A delivery,
    * an abort, a cancellation or the end of a drain never dispatches. */
  lemma DispatchesIff(u: Setup, s: Sys, e: Event)
    requires u.config.Valid() && SchedOk(s) && Enabled(u, s, e)
    ensures |Do(u, s, e).running| > |s.running| <==> Dispatches(u, s, e)
    ensures !Dispatches(u, s, e) ==> NothingNew(s.running, Do(u, s, e).running)
  {
    if Delivers(e) {
      ReceiveKeepsRunning(u, Found(u, s, e), Sender(u, s, e), Sent(u, s, e));
    } else if e.Account? && s.sched.Some? {
      AccountOnIff(s.sched.value, s.handlers[e.handler]);
    }
    hide Receive, Sender, Sent, AccountOn, HandsBackSlot, HandedBack, FindWorker, HeadAssignable, ReadyForFinalization;
  }

  lemma ReceiveKeepsRunning(u: Setup, s: Sys, worker: nat, r: ProofResult)
    requires u.config.Valid() && SchedOk(s)
    ensures Receive(u, s, worker, r).running == s.running
  {
    hide HandleEnvelope, WorkerDrained;
  }

  // ---- in runs ----

  ghost predicate StoreGone(s: Sys) {
    s.tree.status.InProgress? || s.tree.status.Failing? || s.sched.None?
  }

  lemma DeliveryKeepsStoreGone(u: Setup, s: Sys, worker: nat, r: ProofResult)
    requires u.config.Valid() && SchedOk(s) && StoreGone(s)
    ensures StoreGone(Receive(u, s, worker, r))
  {
    if Sealed(u.config, s.tree) {
      ReceiveWhenSealed(u, s, worker, r);
    } else {
      ResultFailsIff(u.config, s.tree, r);
    }
    hide HandleEnvelope, Fails, WorkerDrained;
  }

  lemma EventKeepsStoreGone(u: Setup, s: Sys, e: Event)
    requires u.config.Valid() && SchedOk(s) && Enabled(u, s, e) && StoreGone(s)
    ensures StoreGone(Do(u, s, e))
  {
    hide Receive, AccountStore, AssignOrQueue, FinalArtifact, ReadyForFinalization, Sender, Sent;
    if Delivers(e) {
      DeliveryKeepsStoreGone(u, Found(u, s, e), Sender(u, s, e), Sent(u, s, e));
    }
  }

  /** A proof that has completed, failed for good or been canceled has left the scheduler. */
  lemma {:induction false} EndedProofLeaves(u: Setup, events: seq<Event>)
    requires u.config.Valid() && u.StarkWorkers() > 0
    ensures StoreGone(Run(u, events))
  {
    hide Do, Enabled;
    if events != [] {
      var s, e := Run(u, events[..|events| - 1]), events[|events| - 1];
      EndedProofLeaves(u, events[..|events| - 1]);
      if Enabled(u, s, e) {
        EventKeepsStoreGone(u, s, e);
      }
    }
  }

  /** After any run that has left the in-progress status, the next event dispatches work if and only
    * if the proof is still failing and a phase of an earlier result places a follow-up or hands a
    * slot to the head of the queue. */
  lemma DispatchesOnceFailingIff(u: Setup, events: seq<Event>, e: Event)
    requires u.config.Valid() && u.StarkWorkers() > 0
    requires !Run(u, events).tree.status.InProgress? && Enabled(u, Run(u, events), e)
    ensures |Do(u, Run(u, events), e).running| > |Run(u, events).running| <==>
              Run(u, events).tree.status.Failing? && Dispatches(u, Run(u, events), e)
  {
    EndedProofLeaves(u, events);
    DispatchesIff(u, Run(u, events), e);
    hide Run, Do;
  }

  // ---- two inputs ----

  /** One segment, one worker. */
  const ONE: Setup := Setup(Config(Stark, 0, 1, 2, 0), 1, [Full], 1, 1, false)

  const LEAF: Request := LeafRequest([AppProof(0)], 0, 0)

  const APP: AppState := AppState(0, Some(AppProof(0)), None, None)

  const HELD: Worker := Worker(0, Full, 1, [MARKER], {})

  const TOLD: Worker := Worker(0, Full, 1, [MARKER], {0})

  const IDLE: Worker := Worker(0, Full, 0, [], {0})

  function OneWorker(w: Worker, pending: seq<Request>, count: Option<nat>): Sched {
    Sched([w], pending, count, 1, 0, 1, 1)
  }

  lemma OneIsValid()
    ensures ONE.Valid() && ONE.StarkWorkers() == 1
    ensures Init(ONE).sched == Some(OneWorker(HELD, [], None))
  {
    var ready := ONE.Ready();
    assert ready == [(0, Full)];
    assert ready[..0] == [];
    assert StarkCount(ready[..0]) == 0;
    assert StarkCount(ready) == 1;
    assert InitProof(ready, 1, 1).workers == [HELD];
  }

  lemma OneSegment()
    ensures ExpectedSegments(0, 1, 1) == 1
    ensures OwnedBy({}, 0, 1) == {} && OwnedBy({0}, 0, 1) == {0}
  {
  }

  lemma OneRelease()
    ensures ReleaseMarker(TOLD) == IDLE
  {
    assert [MARKER][1..] == [];
    assert WithoutMarkers([MARKER][1..]) == [];
  }

  /** The leaf batch of the one app proof is asked for at once. */
  lemma OneAppAsks(t: State)
    requires t.apps == map[] && (t.numSegments.Some? ==> t.numSegments.value == 1)
    ensures HandleApp(ONE.config, t, APP).1 == [LEAF]
  {
    var t' := HandleApp(ONE.config, t, APP).0;
    assert BatchStart(ONE.config, 0) == 0 && BatchEnd(ONE.config, t', 0) == 1;
    assert HasApps(t', 0, 1);
    assert AppProofs(t', 0, 1) == [AppProof(0)];
  }

  // ---- what each event of the two runs does ----

  lemma OneCountArrives(s: Sys)
    requires ONE.Valid() && SchedOk(s) && s.tree.status.InProgress? && Running(ONE, s) && !s.countSent
    ensures Enabled(ONE, s, DeliverCount(0, 0))
    ensures var s' := Do(ONE, s, DeliverCount(0, 0));
            && s'.tree == s.tree.(numSegments := Some(1)) && s'.sched == s.sched && s'.running == s.running
            && |s'.handlers| == |s.handlers| + 1 && s'.handlers[..|s.handlers|] == s.handlers
            && s'.handlers[|s.handlers|].result == ExecuteE2Result(0, 1)
            && !s'.handlers[|s.handlers|].sealed && !s'.handlers[|s.handlers|].accounted
  {
    OneIsValid();
    CountTreeStep(ONE, s, 0);
    hide HandleEnvelope, HandleExecuteE2, Running, ReadyForFinalization, IsTreeOk;
  }

  lemma OneAppArrives(s: Sys)
    requires ONE.Valid() && SchedOk(s) && s.tree.status.InProgress? && Running(ONE, s) && 0 !in s.appsSent && s.tree.internals == map[]
    ensures Enabled(ONE, s, DeliverApp(0, None, None))
    ensures var s' := Do(ONE, s, DeliverApp(0, None, None));
            && s'.tree.status.InProgress? && s'.tree.internals == map[] && s'.tree.evm == s.tree.evm
            && s'.sched == s.sched && s'.running == s.running
            && s'.handlers == s.handlers + [Handler(0, AppResult(APP), false, false, [LEAF])]
  {
    hide HandleApp, HandleEnvelope, Running, Do, IsTreeOk, TreeStep, Receive, Delivered;
    OneIsValid();
    RunningParts(s);
    NoAppsYet(s);
    OneAppAsks(s.tree);
    AppTreeStep(ONE, s, APP);
    DeliverAppEffect(ONE, s, 0, None, None);
    NotReadyYet(HandleApp(ONE.config, s.tree, APP).0);
    AppKeepsStatus(s.tree);
  }

  lemma RunningParts(s: Sys)
    requires ONE.Valid() && Running(ONE, s)
    ensures IsTreeOk(ONE, s.tree) && Delivered(s) && s.tree.apps.Keys == s.appsSent
  {
  }

  lemma NotReadyYet(t: State)
    requires t.internals == map[]
    ensures !ReadyForFinalization(ONE.config, t)
  {
    hide Config.FinalLayer;
  }

  lemma AppKeepsStatus(t: State)
    ensures HandleApp(ONE.config, t, APP).0.status == t.status
  {
    hide AppFollowUps;
  }

  lemma NoAppsYet(s: Sys)
    requires ONE.Valid() && Running(ONE, s) && 0 !in s.tree.apps
    ensures s.tree.apps == map[] && (s.tree.numSegments.Some? ==> s.tree.numSegments.value == 1)
  {
  }

  lemma OneErrorArrives(s: Sys)
    requires SchedOk(s) && s.tree.status.InProgress? && s.tree.internals == map[]
    ensures Enabled(ONE, s, DeliverError(0, "leaf_prove", "out of memory"))
    ensures var s' := Do(ONE, s, DeliverError(0, "leaf_prove", "out of memory"));
            && s'.tree.status.Failing? && s'.sched == s.sched && s'.running == s.running
            && |s'.handlers| == |s.handlers| + 1 && s'.handlers[..|s.handlers|] == s.handlers
  {
    assert !Sealed(ONE.config, s.tree);
    hide Config.FinalLayer;
  }

  lemma OneCountKeepsMarker(h: Handler)
    requires h.result == ExecuteE2Result(0, 1)
    ensures AccountOn(OneWorker(HELD, [], None), h) == (OneWorker(HELD, [], Some(1)), [])
  {
    OneSegment();
    AccountCountEffect(OneWorker(HELD, [], None), h);
    hide ExpectedSegments, DrainPending, AccountOn;
    assert !ReleasedByCount(HELD, 1, 1);
    assert ReleaseAllDone([HELD], 1, 1) == [HELD];
  }

  lemma OneAppFrees(h: Handler)
    requires h.result == AppResult(APP) && h.worker == 0 && !h.sealed
    ensures AccountOn(OneWorker(HELD, [], Some(1)), h) == (OneWorker(IDLE, [], Some(1)), [])
    ensures AccountOn(OneWorker(HELD, [], None), h) == (OneWorker(TOLD, [], None), [])
  {
    OneSegment();
    OneRelease();
    OneWorkersOk();
    assert HELD.(completed := HELD.completed + {0}) == TOLD;
    assert [HELD][0 := TOLD] == [TOLD] && [HELD][0 := IDLE] == [IDLE];
    AccountEffect(OneWorker(HELD, [], Some(1)), h);
    AccountEffect(OneWorker(HELD, [], None), h);
    hide ExpectedSegments, AccountOn, ReleaseMarker;
  }

  lemma OneWorkersOk()
    ensures WorkersOk(OneWorker(HELD, [], Some(1))) && WorkersOk(OneWorker(HELD, [], None))
  {
    assert [MARKER][0] == MARKER;
  }

  lemma OneQueues()
    ensures AssignOrQueue(OneWorker(TOLD, [], None), LEAF) == (OneWorker(TOLD, [LEAF], None), None)
  {
    assert TOLD.active[0].step == ShardedAppProve;
    assert TOLD.Runs(ShardedAppProve);
    var d := OneWorker(TOLD, [], None);
    assert FindWorker(d, LeafProve).None?;
    assert Insert(d.pending, LEAF) == [LEAF] + d.pending == [LEAF];
  }

  lemma OneCountHandsOver(h: Handler)
    requires h.result == ExecuteE2Result(0, 1)
    ensures HandsBackSlot(OneWorker(TOLD, [LEAF], None), h) && HeadAssignable(HandedBack(OneWorker(TOLD, [LEAF], None), h))
  {
    OneSegment();
    OneRelease();
    IdleTakesLeaf(OneWorker(IDLE, [LEAF], Some(1)));
    hide ExpectedSegments, ReleaseMarker, FindWorker;
    assert ReleasedByCount([TOLD][0], 1, 1);
    assert ReleaseAllDone([TOLD], 1, 1) == [IDLE];
  }

  lemma IdleTakesLeaf(d: Sched)
    requires d.workers == [IDLE]
    ensures FindWorker(d, LeafProve).Some?
  {
    assert FreeForLeaf(d.workers[0]);
  }

  lemma OneAccounts(s: Sys, i: nat)
    requires SchedOk(s) && i < |s.handlers| && !s.handlers[i].accounted && !s.handlers[i].sealed && s.sched.Some?
    ensures Enabled(ONE, s, Account(i, true))
    ensures var (d, a) := AccountOn(s.sched.value, s.handlers[i]);
            Do(ONE, s, Account(i, true)) ==
            s.(sched := Some(d), running := s.running + a, handlers := s.handlers[i := s.handlers[i].(accounted := true)])
  {
    hide AccountOn;
  }

  // ---- the two runs ----

  const FAILURE: Event := DeliverError(0, "leaf_prove", "out of memory")

  /** The count arrives first, then the app result; both are accounted for. */
  lemma CountThenApp() returns (events: seq<Event>)
    ensures ONE.Valid()
    ensures var s := Run(ONE, events);
            && s.tree.status.InProgress? && s.tree.internals == map[] && s.running == []
            && s.sched == Some(OneWorker(HELD, [], None)) && |s.handlers| == 2
            && s.handlers[0].result == ExecuteE2Result(0, 1) && !s.handlers[0].sealed && !s.handlers[0].accounted
            && s.handlers[1] == Handler(0, AppResult(APP), false, false, [LEAF])
  {
    hide Do, Enabled, Inv, Run, Running;
    OneIsValid();
    RunStart();
    LiveRun([]);
    OneCountArrives(Run(ONE, []));
    RunOneMore(ONE, [], DeliverCount(0, 0));
    CountSendsNoApp(Run(ONE, []));
    events := [] + [DeliverCount(0, 0)];
    LiveRun(events);
    OneAppArrives(Run(ONE, events));
    RunOneMore(ONE, events, DeliverApp(0, None, None));
    events := events + [DeliverApp(0, None, None)];
  }

  lemma CountSendsNoApp(s: Sys)
    requires SchedOk(s) && Enabled(ONE, s, DeliverCount(0, 0))
    ensures Do(ONE, s, DeliverCount(0, 0)).appsSent == s.appsSent
  {
    hide HandleEnvelope, WorkerDrained;
  }

  lemma AppAndCountDone() returns (events: seq<Event>)
    ensures ONE.Valid()
    ensures var s := Run(ONE, events);
            && s.tree.status.InProgress? && s.tree.internals == map[] && s.sched == Some(OneWorker(IDLE, [], Some(1))) && s.running == []
            && |s.handlers| == 2 && s.handlers[1].accounted && s.handlers[1].followUps == [LEAF]
  {
    hide Do, Enabled, Inv, Run, AccountOn;
    events := CountThenApp();
    OneAccounts(Run(ONE, events), 0);
    OneCountKeepsMarker(Run(ONE, events).handlers[0]);
    RunOneMore(ONE, events, Account(0, true));
    events := events + [Account(0, true)];
    OneAccounts(Run(ONE, events), 1);
    OneAppFrees(Run(ONE, events).handlers[1]);
    RunOneMore(ONE, events, Account(1, true));
    events := events + [Account(1, true)];
  }

  lemma RunStart()
    requires ONE.Valid()
    ensures Run(ONE, []) == Init(ONE) && Init(ONE).tree == FRESH && Init(ONE).handlers == [] && Init(ONE).running == []
    ensures !Init(ONE).countSent && Init(ONE).appsSent == {}
  {
  }

  lemma LiveRun(events: seq<Event>)
    requires ONE.Valid() && Run(ONE, events).tree.status.InProgress?
    ensures Running(ONE, Run(ONE, events))
  {
    RunKeepsInv(ONE, events);
  }

  /** App and count in and accounted for, then a failure: the follow-up is dispatched all the same. */
  lemma FollowUpDispatchedWhileFailing() returns (events: seq<Event>)
    ensures ONE.Valid() && Run(ONE, events).tree.status.Failing? && Run(ONE, events).running == []
    ensures Enabled(ONE, Run(ONE, events), Enqueue(1)) && Dispatches(ONE, Run(ONE, events), Enqueue(1))
    ensures |Do(ONE, Run(ONE, events), Enqueue(1)).running| == 1
  {
    var before := AppAndCountDone();
    events := before + [FAILURE];
    var s := Run(ONE, before);
    OneErrorArrives(s);
    RunOneMore(ONE, before, FAILURE);
    hide Run, Do, FindWorker;
    var s' := Run(ONE, events);
    assert s'.handlers[1] == s.handlers[1];
    IdleTakesLeaf(s'.sched.value);
    DispatchesIff(ONE, s', Enqueue(1));
    EnqueueAddsOne(s', 1);
  }

  lemma EnqueueAddsOne(s: Sys, i: nat)
    requires SchedOk(s) && Enabled(ONE, s, Enqueue(i))
    ensures |Do(ONE, s, Enqueue(i)).running| <= |s.running| + 1
  {
    hide AssignOrQueue;
  }

  lemma EnqueueQueues(s: Sys)
    requires s.sched == Some(OneWorker(TOLD, [], None)) && Enabled(ONE, s, Enqueue(0)) && s.handlers[0].followUps == [LEAF]
    ensures SchedOk(s)
    ensures Do(ONE, s, Enqueue(0)) ==
            s.(sched := Some(OneWorker(TOLD, [LEAF], None)), handlers := s.handlers[0 := s.handlers[0].(followUps := [])])
  {
    OneQueues();
    hide AssignOrQueue;
    assert [LEAF][1..] == [];
    assert s.running + [] == s.running;
  }

  /** The app result arrives first, and its leaf is queued behind the marker; then the count. */
  lemma LeafQueued() returns (events: seq<Event>)
    ensures ONE.Valid()
    ensures var s := Run(ONE, events);
            && s.tree.status.InProgress? && s.tree.internals == map[] && s.running == [] && !s.countSent
            && s.sched == Some(OneWorker(TOLD, [LEAF], None)) && |s.handlers| == 1
  {
    hide Do, Enabled, Inv, Run, Running, AccountOn;
    OneIsValid();
    RunStart();
    LiveRun([]);
    OneAppArrives(Run(ONE, []));
    AppSendsNoCount(Run(ONE, []));
    RunOneMore(ONE, [], DeliverApp(0, None, None));
    events := [] + [DeliverApp(0, None, None)];
    OneAccounts(Run(ONE, events), 0);
    OneAppFrees(Run(ONE, events).handlers[0]);
    RunOneMore(ONE, events, Account(0, true));
    events := events + [Account(0, true)];
    CanEnqueue(Run(ONE, events));
    EnqueueQueues(Run(ONE, events));
    RunOneMore(ONE, events, Enqueue(0));
    events := events + [Enqueue(0)];
  }

  lemma AppSendsNoCount(s: Sys)
    requires SchedOk(s) && Enabled(ONE, s, DeliverApp(0, None, None))
    ensures Do(ONE, s, DeliverApp(0, None, None)).countSent == s.countSent
  {
    hide HandleEnvelope, WorkerDrained;
  }

  lemma CanEnqueue(s: Sys)
    requires s.handlers != [] && s.handlers[0].accounted && s.handlers[0].followUps != []
    ensures Enabled(ONE, s, Enqueue(0))
  {
  }

  /** A leaf queued and the count received, then a failure: accounting for the count pulls the leaf
    * all the same. */
  lemma QueuedWorkPulledWhileFailing() returns (events: seq<Event>)
    ensures ONE.Valid() && Run(ONE, events).tree.status.Failing? && Run(ONE, events).running == []
    ensures Enabled(ONE, Run(ONE, events), Account(1, true)) && Dispatches(ONE, Run(ONE, events), Account(1, true))
    ensures |Do(ONE, Run(ONE, events), Account(1, true)).running| > 0
  {
    hide Do, Enabled, Inv, Run, Running, AccountOn, HandsBackSlot, HandedBack, HeadAssignable;
    var before := LeafQueued();
    LiveRun(before);
    OneCountArrives(Run(ONE, before));
    RunOneMore(ONE, before, DeliverCount(0, 0));
    before := before + [DeliverCount(0, 0)];
    var s := Run(ONE, before);
    OneErrorArrives(s);
    RunOneMore(ONE, before, FAILURE);
    events := before + [FAILURE];
    var s' := Run(ONE, events);
    assert s'.handlers[1] == s'.handlers[..2][1];
    OneAccounts(s', 1);
    OneCountHandsOver(s'.handlers[1]);
    DispatchesIff(ONE, s', Account(1, true));
  }
}
