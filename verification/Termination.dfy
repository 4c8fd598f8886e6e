/** A proof always finishes: each forward event uses up part of a fixed budget, so every run
  * of forward events ends, and it can only end completed. */
module Termination {
  import opened Arithmetic
  import opened Protocol
  import opened TreePlan
  import opened PriorityQueue
  import opened ProofDriver
  import opened DriverRefinement
  import opened Scheduler
  import opened SchedulerFacts
  import opened Manager
  import opened ManagerCounting
  import opened ManagerInvariant
  import opened ReceiveEvents
  import opened InvariantHolds
  import opened Liveness
  import opened Safety

  // ---- the budget ----

  /** Nodes of the tree above the app proofs. */
  ghost function TreeSize(u: Setup): nat
    requires u.Valid()
  {
    |NodesBetween(P(u), 1, Last(u.config, P(u)))|
  }

  /** Events left in the handlers: one to account for each result, three for each follow-up
    * (enqueue it, deliver its result, account for that). */
  ghost function HandlerLoad(hs: seq<Handler>): nat {
    if hs == [] then 0
    else HandlerLoad(hs[..|hs| - 1]) + Bit(!hs[|hs| - 1].accounted) + 3 * |hs[|hs| - 1].followUps|
  }

  ghost function QueueLength(sched: Option<Sched>): nat {
    if sched.Some? then |sched.value.pending| else 0
  }

  /** Forward events a run may still take. */
  ghost function Budget(u: Setup, s: Sys): int
    requires u.Valid()
  {
    2 * (u.segments - |s.appsSent|) + 2 * Bit(!s.countSent) + 3 * (TreeSize(u) - |s.requested|)
    + HandlerLoad(s.handlers) + 2 * QueueLength(s.sched) + 2 * |s.running|
  }

  lemma LoadAppend(hs: seq<Handler>, h: Handler)
    ensures HandlerLoad(hs + [h]) == HandlerLoad(hs) + Bit(!h.accounted) + 3 * |h.followUps|
  {
    assert (hs + [h])[..|hs|] == hs;
  }

  lemma {:induction false} LoadUpdate(hs: seq<Handler>, i: nat, h: Handler)
    requires i < |hs|
    ensures HandlerLoad(hs[i := h]) + Bit(!hs[i].accounted) + 3 * |hs[i].followUps|
            == HandlerLoad(hs) + Bit(!h.accounted) + 3 * |h.followUps|
  {
    var k := |hs| - 1;
    if i == k {
      assert hs[i := h][..k] == hs[..k];
    } else {
      assert hs[i := h][..k] == hs[..k][i := h];
      LoadUpdate(hs[..k], i, h);
    }
  }

  // ---- no operation makes or loses queued work ----

  lemma TryDequeueLength(d: Sched)
    ensures var (d', a) := TryDequeue(d); |d'.pending| + (if a.Some? then 1 else 0) == |d.pending|
  {
    hide FindWorker, Slot;
  }

  lemma DrainLength(d: Sched)
    ensures var (d', a) := DrainPending(d); |d'.pending| + |a| == |d.pending|
  {
    DrainPendingConserves(d);
    var (d', a) := DrainPending(d);
    assert |multiset(d'.pending) + multiset(RequestsOf(a))| == |multiset(d.pending)|;
    hide DrainPending;
  }

  lemma CompleteLength(d: Sched, w: nat, r: ProofResult)
    requires d.numWorkers > 0
    ensures var (d', a) := CompleteWork(d, w, r); |d'.pending| + (if a.Some? then 1 else 0) == |d.pending|
  {
    match ApplyCompletion(d, w, r)
    case Unregistered =>
    case Applied(d', freed) =>
      assert d'.pending == d.pending by { hide FindId, CompleteOn; }
      if freed {
        TryDequeueLength(d');
      }
  }

  lemma AccountLength(sched: Option<Sched>, h: Handler)
    requires sched.Some? ==> sched.value.numWorkers > 0
    ensures var (sched', a) := AccountStore(sched, h); QueueLength(sched') + |a| == QueueLength(sched)
  {
    if sched.Some? {
      var d := sched.value;
      var n := if h.result.ExecuteE2Result? then h.result.numSegments else 0;
      SetNumSegmentsKeeps(d, n);
      DrainLength(d.(numSegments := Some(n), workers := ReleaseAllDone(d.workers, n, d.numWorkers)));
      var (s1, released) := if h.result.ExecuteE2Result? then SetNumSegments(d, n) else (d, []);
      assert |s1.pending| + |released| == |d.pending| by { hide DrainPending, ReleaseAllDone, SomeReleased; }
      CompleteLength(s1, h.worker, h.result);
      hide CompleteWork, SetNumSegments, DrainPending;
    }
  }

  lemma EnqueueLength(d: Sched, r: Request)
    ensures var (d', a) := AssignOrQueue(d, r); |d'.pending| + (if a.Some? then 1 else 0) == |d.pending| + 1
  {
    hide FindWorker, Slot;
  }

  // ---- every forward event uses up budget ----

  /** Receiving a result adds at most its accounting to the handlers' work. */
  lemma ReceiveBudget(u: Setup, s: Sys, worker: nat, r: ProofResult)
    requires u.Valid() && SchedOk(s)
    ensures Budget(u, Receive(u, s, worker, r)) <= Budget(u, s) + 1
    ensures var s' := Receive(u, s, worker, r); s'.appsSent == s.appsSent && s'.countSent == s.countSent
  {
    hide HandleEnvelope, TreeSize, HandlerLoad, WorkerDrained, SchedOk;
    var (t', outcome) := HandleEnvelope(u.config, s.tree, r);
    match outcome
    case Late(_, _) =>
      if s.sched.Some? {
        assert s.sched.value.numWorkers > 0 by { SchedHasWorkers(s); }
        DrainedKeepsQueue(s.sched.value, worker, r);
      }
    case HandlerError(_) =>
    case Processed(f, sealed) => LoadAppend(s.handlers, Handler(worker, r, sealed, false, f));
  }

  lemma SchedHasWorkers(s: Sys)
    requires SchedOk(s) && s.sched.Some?
    ensures s.sched.value.numWorkers > 0
  {
  }

  lemma DrainedKeepsQueue(d: Sched, worker: nat, r: ProofResult)
    requires d.numWorkers > 0
    ensures WorkerDrained(d, worker, r).pending == d.pending
  {
  }

  lemma ForwardUsesBudget(u: Setup, s: Sys, e: Event)
    requires u.Valid() && SchedOk(s) && Forward(u, e) && Enabled(u, s, e)
    ensures Budget(u, Do(u, s, e)) < Budget(u, s)
  {
    hide TreeSize, Receive, HandlerLoad, AccountStore, AssignOrQueue, Finalize, ReadyForFinalization, FinalArtifact, Sender, Sent;
    if Delivers(e) {
      ReceiveBudget(u, Found(u, s, e), Sender(u, s, e), Sent(u, s, e));
    }
    match e
    case Account(i, _) =>
      LoadUpdate(s.handlers, i, s.handlers[i].(accounted := true));
      AccountLength(s.sched, s.handlers[i]);
    case Enqueue(i) =>
      var h := s.handlers[i];
      LoadUpdate(s.handlers, i, h.(followUps := h.followUps[1..]));
      if s.sched.Some? {
        EnqueueLength(s.sched.value, h.followUps[0]);
      }
    case _ =>
  }

  // ---- the budget never runs below zero ----

  lemma SegmentsSent(u: Setup, sent: set<nat>)
    requires forall i :: i in sent ==> i < u.segments
    ensures |sent| <= u.segments
  {
    SubsetSize(sent, Below(u.segments));
  }

  lemma {:induction false} AllInLevels(u: Setup, rs: seq<Request>)
    requires u.Valid() && AllGood(u, rs)
    ensures RequestsInLevels(u, rs, 1, Last(u.config, P(u))) == |rs|
  {
    if rs != [] {
      AllInLevels(u, rs[..|rs| - 1]);
      assert Good(u, rs[|rs| - 1]);
    }
  }

  lemma BudgetNotNegative(u: Setup, s: Sys)
    requires u.Valid() && HistoryOk(u, s.requested) && forall i :: i in s.appsSent ==> i < u.segments
    ensures Budget(u, s) >= 0
  {
    SegmentsSent(u, s.appsSent);
    hide Good, Count, RequestsInLevels, NodesBetween;
    AllInLevels(u, s.requested);
    HistoryInTree(u, s.requested, 1, Last(u.config, P(u)));
  }

  // ---- runs of forward events ----

  /** Every event of the run was possible when its turn came, and a forward one. */
  ghost predicate Productive(u: Setup, events: seq<Event>)
    requires u.Valid()
  {
    events != [] ==>
      var before, e := events[..|events| - 1], events[|events| - 1];
      Productive(u, before) && Forward(u, e) && Enabled(u, Run(u, before), e)
  }

  ghost predicate OnCourse(s: Sys) {
    s.tree.status.Completed? || (s.tree.status.InProgress? && s.sched.Some?)
  }

  lemma ForwardStaysOnCourse(u: Setup, s: Sys, e: Event)
    requires u.Valid() && SchedOk(s) && Inv(u, s) && OnCourse(s) && Forward(u, e) && Enabled(u, s, e)
    ensures OnCourse(Do(u, s, e))
  {
    if s.tree.status.Completed? {
      SettledStays(u, s, e);
    } else {
      if Delivers(e) {
        DeliveryKeepsStore(u, s, e);
      }
      match e
      case DeliverCount(w, cost) => DeliverCountKeeps(u, s, w, cost);
      case DeliverApp(i, path, depth0) => DeliverAppKeeps(u, s, i, path, depth0);
      case DeliverJob(j, merkle) => DeliverJobKeeps(u, s, j, merkle);
      case Account(i, saved) =>
        if s.handlers[i].sealed {
          SealedAccounted(u, s, i, saved);
        } else {
          hide AccountStore, Running, ReadyForFinalization;
        }
      case Enqueue(i) =>
        hide AssignOrQueue, Running;
    }
  }

  lemma ReceiveKeepsStore(u: Setup, s: Sys, worker: nat, r: ProofResult)
    requires u.config.Valid() && SchedOk(s)
    ensures Receive(u, s, worker, r).sched.Some? <==> s.sched.Some?
  {
    hide HandleEnvelope, WorkerDrained;
  }

  lemma DeliveryKeepsStore(u: Setup, s: Sys, e: Event)
    requires u.Valid() && SchedOk(s) && Enabled(u, s, e) && Delivers(e)
    ensures Do(u, s, e).sched.Some? <==> s.sched.Some?
  {
    hide Receive, Sender, Sent;
    ReceiveKeepsStore(u, Found(u, s, e), Sender(u, s, e), Sent(u, s, e));
  }

  lemma {:induction false} AppsSentInRange(u: Setup, events: seq<Event>)
    requires u.Valid()
    ensures forall i :: i in Run(u, events).appsSent ==> i < u.segments
  {
    if events != [] {
      var s, e := Run(u, events[..|events| - 1]), events[|events| - 1];
      AppsSentInRange(u, events[..|events| - 1]);
      if Enabled(u, s, e) {
        SentGrows(u, s, e);
      }
    }
  }

  lemma SentGrows(u: Setup, s: Sys, e: Event)
    requires u.Valid() && SchedOk(s) && Enabled(u, s, e)
    ensures forall i :: i in Do(u, s, e).appsSent ==> i in s.appsSent || i < u.segments
  {
    hide HandleEnvelope, AccountStore, AssignOrQueue;
  }

  lemma {:induction false} ProductiveRun(u: Setup, events: seq<Event>)
    requires u.Valid() && Productive(u, events)
    ensures OnCourse(Run(u, events))
    ensures |events| + Budget(u, Run(u, events)) <= Budget(u, Init(u))
  {
    hide Do, Enabled, Inv, Budget, OnCourse;
    if events == [] {
      StartsOnCourse(u);
    } else {
      var before, e := events[..|events| - 1], events[|events| - 1];
      var s := Run(u, before);
      ProductiveRun(u, before);
      RunKeepsInv(u, before);
      ForwardUsesBudget(u, s, e);
      ForwardStaysOnCourse(u, s, e);
    }
  }

  lemma StartsOnCourse(u: Setup)
    requires u.Valid()
    ensures OnCourse(Init(u))
  {
  }

  lemma InitialBudget(u: Setup)
    requires u.Valid()
    ensures Budget(u, Init(u)) == 2 * u.segments + 2 + 3 * TreeSize(u)
  {
    hide TreeSize;
  }

  /** Termination and completion: a run of forward events has at most
    * `2 * segments + 2 + 3 * TreeSize` of them, and when no more are possible the proof has
    * completed with the sequential fold as its artifact. */
  lemma EveryProductiveRunCompletes(u: Setup, events: seq<Event>)
    requires u.Valid() && Productive(u, events)
    ensures |events| <= 2 * u.segments + 2 + 3 * TreeSize(u)
    ensures (forall e :: Forward(u, e) ==> !Enabled(u, Run(u, events), e)) ==>
              && Run(u, events).tree.status.Completed?
              && FinalArtifact(u.config, Run(u, events).tree) == Some(P(u).Proof(Root(u)))
  {
    var s := Run(u, events);
    RunKeepsInv(u, events);
    AppsSentInRange(u, events);
    hide Enabled, Budget, TreeSize, Run, Good, Count, HistoryOk;
    ProductiveRun(u, events);
    InitialBudget(u);
    assert HistoryOk(u, s.requested);
    BudgetNotNegative(u, s);
    if s.tree.status.InProgress? {
      var e := NeverStuck(u, events);
    } else {
      ArtifactIsSequentialFold(u, events);
    }
  }

  // ---- from anywhere ----

  lemma BudgetOfRun(u: Setup, events: seq<Event>)
    requires u.Valid()
    ensures Budget(u, Run(u, events)) >= 0
  {
    hide Budget, Run, Good, Count;
    RunKeepsInv(u, events);
    AppsSentInRange(u, events);
    BudgetNotNegative(u, Run(u, events));
  }

  /** With its scheduler state gone, a proof still in progress only waits for its sealing result. */
  lemma SealerFinishes(u: Setup, s: Sys) returns (e: Event)
    requires u.Valid() && SchedOk(s) && s.tree.status.InProgress? && Running(u, s) && s.sched.None?
    ensures Forward(u, e) && Enabled(u, s, e) && Do(u, s, e).tree.status.Completed?
  {
    var i :| 0 <= i < |s.handlers| && s.handlers[i].sealed && !s.handlers[i].accounted;
    e := Account(i, true);
    SealedAccounted(u, s, i, true);
  }

  lemma LiveFacts(u: Setup, events: seq<Event>)
    requires u.Valid() && Run(u, events).tree.status.InProgress?
    ensures Inv(u, Run(u, events)) && Running(u, Run(u, events))
  {
    RunKeepsInv(u, events);
    hide Run;
  }

  /** From every state that a run can reach in progress, whatever failed deliveries and cancellations
    * of a sealed proof came before, some forward events lead to completion. */
  lemma {:induction false} CanStillComplete(u: Setup, events: seq<Event>) returns (more: seq<Event>)
    requires u.Valid() && Run(u, events).tree.status.InProgress?
    ensures Run(u, events + more).tree.status.Completed?
    ensures forall e :: e in more ==> Forward(u, e)
    decreases Budget(u, Run(u, events))
  {
    hide Run, Do, Enabled, Inv, Running, Budget, Forward;
    var s := Run(u, events);
    LiveFacts(u, events);
    BudgetOfRun(u, events);
    var e: Event;
    if s.sched.None? {
      e := SealerFinishes(u, s);
    } else {
      e := NeverStuck(u, events);
      ForwardStaysOnCourse(u, s, e);
    }
    RunOneMore(u, events, e);
    more := [e];
    if !Run(u, events + [e]).tree.status.Completed? {
      ForwardUsesBudget(u, s, e);
      var rest := CanStillComplete(u, events + [e]);
      assert events + [e] + rest == events + ([e] + rest);
      more := [e] + rest;
    }
  }

  /** In particular, every proof can complete. */
  lemma SomeRunCompletes(u: Setup) returns (events: seq<Event>)
    requires u.Valid()
    ensures Run(u, events).tree.status.Completed?
  {
    events := CanStillComplete(u, []);
    assert [] + events == events;
  }
}
