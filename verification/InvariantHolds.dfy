/** The invariant holds in every state of every run. */
module InvariantHolds {
  import opened Protocol
  import opened TreePlan
  import opened ProofDriver
  import opened DriverRefinement
  import opened Scheduler
  import opened SchedulerFacts
  import opened Manager
  import opened ManagerCounting
  import opened ManagerInvariant
  import opened ReceivePhase
  import opened ReceiveEvents
  import opened DispatchPhases
  import opened AccountPhaseProof

  // ---- a proof that is no longer in progress ----

  /** What no event changes once a proof has left the in-progress status. */
  ghost predicate Settled(s: Sys, s': Sys) {
    && SameContents(s.tree, s'.tree) && s'.requested == s.requested && s'.persisted == s.persisted
    && (s'.tree.status == s.tree.status || (s.tree.status.Failing? && s'.tree.status == Failed(s.tree.status.reason)))
  }

  lemma ReceiveWhenSealed(u: Setup, s: Sys, worker: nat, r: ProofResult)
    requires u.config.Valid() && SchedOk(s) && Sealed(u.config, s.tree)
    ensures var s' := Receive(u, s, worker, r);
            && s'.tree == s.tree.(lateNoticeEmitted := true) && s'.handlers == s.handlers && s'.requested == s.requested
            && s'.running == s.running && s'.persisted == s.persisted && s'.appsSent == s.appsSent && s'.countSent == s.countSent
            && (!s.tree.status.Failing? ==> s'.sched == s.sched)
  {
  }

  lemma SettledStays(u: Setup, s: Sys, e: Event)
    requires u.config.Valid() && SchedOk(s) && Enabled(u, s, e) && !s.tree.status.InProgress?
    ensures Settled(s, Do(u, s, e))
  {
    hide ReadyForFinalization, Receive, AccountStore, AssignOrQueue, Sender, Sent;
    if Delivers(e) {
      ReceiveWhenSealed(u, Found(u, s, e), Sender(u, s, e), Sent(u, s, e));
    }
  }

  lemma SettledKeepsInv(u: Setup, s: Sys, s': Sys)
    requires u.Valid() && Inv(u, s) && !s.tree.status.InProgress? && Settled(s, s')
    ensures Inv(u, s')
  {
    SameContentsReady(u, s.tree, s'.tree);
    hide IsReady, Count, IsTreeOk, ReadyForFinalization, Good, FinalArtifact, Running;
    if s'.tree.status.Completed? {
      forall n: Node ensures Count(u, s'.requested, n) == Bit(IsReady(u, s'.tree, n)) {
        assert Count(u, s.requested, n) == Bit(IsReady(u, s.tree, n));
      }
    }
  }

  // ---- leaving the in-progress status ----

  lemma StopsOk(u: Setup, s: Sys, s': Sys)
    requires u.Valid() && s.tree.status.InProgress? && Running(u, s) && s'.requested == s.requested
    requires !s'.tree.status.InProgress? && !s'.tree.status.Completed?
    ensures Inv(u, s')
  {
    HistoryExactIsOk(u, s.tree, s.requested);
  }

  lemma RunsOn(u: Setup, s': Sys)
    requires u.Valid() && s'.tree.status.InProgress? && Running(u, s')
    ensures Inv(u, s')
  {
    HistoryExactIsOk(u, s'.tree, s'.requested);
  }

  // ---- deliveries while in progress ----

  lemma CountDelivered(u: Setup, s: Sys, w: nat, cost: nat)
    requires u.Valid() && SchedOk(s) && s.tree.status.InProgress? && Running(u, s) && Enabled(u, s, DeliverCount(w, cost))
    ensures Inv(u, Do(u, s, DeliverCount(w, cost)))
  {
    var s' := Do(u, s, DeliverCount(w, cost));
    if cost <= u.config.costLimit {
      DeliverCountKeeps(u, s, w, cost);
      RunsOn(u, s');
    } else {
      CountTreeStep(u, s, cost);
      assert s'.requested == s.requested + [] && s'.tree.status.Failing? by { hide HandleEnvelope; }
      assert s.requested + [] == s.requested;
      StopsOk(u, s, s');
    }
  }

  lemma QuietDelivery(u: Setup, s: Sys, s': Sys)
    requires u.Valid() && s.tree.status.InProgress? && Running(u, s)
    requires s' == s.(tree := s.tree.(lateNoticeEmitted := true), running := s'.running)
    requires s'.running == s.running || (s.sched.None? && ReadyForFinalization(u.config, s.tree))
    ensures Inv(u, s')
  {
    QuietKeeps(u, s, s');
    RunsOn(u, s');
  }

  lemma JobDelivered(u: Setup, s: Sys, j: nat, merkle: Option<Bytes>)
    requires u.Valid() && SchedOk(s) && s.tree.status.InProgress? && Running(u, s) && Enabled(u, s, DeliverJob(j, merkle))
    ensures Inv(u, Do(u, s, DeliverJob(j, merkle)))
  {
    var s' := Do(u, s, DeliverJob(j, merkle));
    if s.sched.Some? {
      DeliverJobKeeps(u, s, j, merkle);
      RunsOn(u, s');
    } else {
      var s1 := s.(running := s.running[..j] + s.running[j + 1..]);
      assert ReadyForFinalization(u.config, s.tree);
      ReceiveWhenSealed(u, s1, s.running[j].workerId, ResultOf(u, s.running[j].request, merkle));
      assert s' == Receive(u, s1, s.running[j].workerId, ResultOf(u, s.running[j].request, merkle));
      hide Receive, ReadyForFinalization, Running, Do;
      QuietDelivery(u, s, s');
    }
  }

  lemma ErrorDelivered(u: Setup, s: Sys, w: nat, step: string, error: string)
    requires u.Valid() && SchedOk(s) && s.tree.status.InProgress? && Running(u, s) && Enabled(u, s, DeliverError(w, step, error))
    ensures Inv(u, Do(u, s, DeliverError(w, step, error)))
  {
    var s' := Do(u, s, DeliverError(w, step, error));
    if ReadyForFinalization(u.config, s.tree) {
      ReceiveWhenSealed(u, s, w, ErrorResult(step, error));
      hide Receive, ReadyForFinalization, Running;
      QuietDelivery(u, s, s');
    } else {
      hide ReadyForFinalization, Running;
      assert s'.tree.status.Failing?;
      assert s.requested + [] == s.requested;
      StopsOk(u, s, s');
    }
  }

  // ---- accounting and enqueueing while in progress ----

  /** Changing one handler's book-keeping, but not what it stored or whether it seals. */
  lemma HandlerMoves(u: Setup, s: Sys, s': Sys, i: nat, h': Handler)
    requires u.Valid() && s.tree.status.InProgress? && Running(u, s) && i < |s.handlers|
    requires s' == s.(sched := s'.sched, running := s'.running, handlers := s.handlers[i := h'])
    requires var h := s.handlers[i]; h'.result == h.result && h'.worker == h.worker && h'.sealed == h.sealed
    requires h'.accounted == s.handlers[i].accounted || !h'.sealed
    requires forall r :: r in h'.followUps ==> r in s.handlers[i].followUps
    requires s'.sched.Some? <==> s.sched.Some?
    requires s.sched.Some? ==> SchedLive(u, s.tree, s'.sched.value, s'.running, s'.handlers)
    ensures Inv(u, s')
  {
    hide IsTreeOk, HistoryExact, ReadyForFinalization, SchedLive, Good;
    assert HandlersOk(u, s'.tree, s'.handlers) by {
      forall h | h in s'.handlers ensures HandlerOk(u, s'.tree, h) {
        if h == h' {
          assert HandlerOk(u, s.tree, s.handlers[i]);
        } else {
          assert h in s.handlers;
          assert HandlerOk(u, s.tree, h);
        }
      }
    }
    if SealerInFlight(s.handlers) {
      var k :| 0 <= k < |s.handlers| && s.handlers[k].sealed && !s.handlers[k].accounted;
      assert s'.handlers[k].sealed && !s'.handlers[k].accounted;
    }
    RunsOn(u, s');
  }

  lemma UnsealedAccounted(u: Setup, s: Sys, i: nat, saved: bool)
    requires u.Valid() && SchedOk(s) && s.tree.status.InProgress? && Running(u, s)
    requires Enabled(u, s, Account(i, saved)) && !s.handlers[i].sealed
    ensures Inv(u, Do(u, s, Account(i, saved)))
  {
    var s' := Do(u, s, Account(i, saved));
    assert s'.handlers == TickedOff(s.handlers, i);
    if s.sched.Some? {
      AccountKeepsSched(u, s.tree, s.sched.value, s.running, s.handlers, i);
    }
    hide Running, SchedLive, AccountOn;
    HandlerMoves(u, s, s', i, s.handlers[i].(accounted := true));
  }

  /** The sealing result ends the run: completed, or failed because the artifact was not saved. */
  lemma SealedAccounted(u: Setup, s: Sys, i: nat, saved: bool)
    requires u.Valid() && SchedOk(s) && s.tree.status.InProgress? && Running(u, s)
    requires Enabled(u, s, Account(i, saved)) && s.handlers[i].sealed
    ensures Inv(u, Do(u, s, Account(i, saved)))
    ensures Do(u, s, Account(i, saved)).tree.status == if u.persists && !saved then Failed("persist final proof") else Completed
  {
    var s' := Do(u, s, Account(i, saved));
    assert HandlerOk(u, s.tree, s.handlers[i]);
    assert ReadyForFinalization(u.config, s.tree);
    SameContentsReady(u, s.tree, s'.tree);
    hide IsTreeOk, ReadyForFinalization, FinalArtifact, AccountStore, AllGood, SchedLive, IsReady, Count;
    HistoryExactIsOk(u, s.tree, s.requested);
    if s'.tree.status.Completed? {
      forall n: Node ensures Count(u, s'.requested, n) == Bit(IsReady(u, s'.tree, n)) {
        assert Count(u, s.requested, n) == Bit(IsReady(u, s.tree, n));
      }
    }
  }

  lemma Enqueued(u: Setup, s: Sys, i: nat)
    requires u.Valid() && SchedOk(s) && s.tree.status.InProgress? && Running(u, s) && Enabled(u, s, Enqueue(i))
    ensures Inv(u, Do(u, s, Enqueue(i)))
  {
    var s' := Do(u, s, Enqueue(i));
    var h := s.handlers[i];
    assert HandlerOk(u, s.tree, h);
    if s.sched.Some? {
      EnqueueKeepsSched(u, s, i);
    }
    hide Running, SchedLive, AssignOrQueue, HandlerOk, HandlersOk;
    HandlerMoves(u, s, s', i, h.(followUps := h.followUps[1..]));
  }

  // ---- every event, every run ----

  lemma InProgressKeepsInv(u: Setup, s: Sys, e: Event)
    requires u.Valid() && SchedOk(s) && s.tree.status.InProgress? && Running(u, s) && Enabled(u, s, e)
    ensures Inv(u, Do(u, s, e))
  {
    hide Running, Inv;
    match e
    case DeliverCount(w, cost) => CountDelivered(u, s, w, cost);
    case DeliverApp(i, path, depth0) =>
      DeliverAppKeeps(u, s, i, path, depth0);
      RunsOn(u, Do(u, s, e));
    case DeliverJob(j, merkle) => JobDelivered(u, s, j, merkle);
    case DeliverError(w, step, error) => ErrorDelivered(u, s, w, step, error);
    case Account(i, saved) => if s.handlers[i].sealed { SealedAccounted(u, s, i, saved); } else { UnsealedAccounted(u, s, i, saved); }
    case Enqueue(i) => Enqueued(u, s, i);
    case Abort(step, reason) => Aborted(u, s, step, reason);
    case CancelProof => CanceledOk(u, s);
    case DrainFailing(_) =>
  }

  lemma Aborted(u: Setup, s: Sys, step: string, reason: string)
    requires u.Valid() && SchedOk(s) && s.tree.status.InProgress? && Running(u, s)
    ensures Inv(u, Do(u, s, Abort(step, reason)))
  {
    var s' := Do(u, s, Abort(step, reason));
    hide Running, ReadyForFinalization;
    if ReadyForFinalization(u.config, s.tree) {
      assert s' == s;
      RunsOn(u, s);
    } else {
      StopsOk(u, s, s');
    }
  }

  lemma CanceledOk(u: Setup, s: Sys)
    requires u.Valid() && SchedOk(s) && s.tree.status.InProgress? && Running(u, s)
    ensures Inv(u, Do(u, s, CancelProof))
  {
    var s' := Do(u, s, CancelProof);
    hide Running, ReadyForFinalization;
    if ReadyForFinalization(u.config, s.tree) {
      QuietKeeps(u, s, s');
      RunsOn(u, s');
    } else {
      StopsOk(u, s, s');
    }
  }

  lemma EventKeepsInv(u: Setup, s: Sys, e: Event)
    requires u.Valid() && SchedOk(s) && Inv(u, s) && Enabled(u, s, e)
    ensures Inv(u, Do(u, s, e))
  {
    if s.tree.status.InProgress? {
      assert Running(u, s);
      hide Running, Inv;
      InProgressKeepsInv(u, s, e);
    } else {
      hide Inv, Do;
      SettledStays(u, s, e);
      SettledKeepsInv(u, s, Do(u, s, e));
    }
  }

  // ---- the initial state ----

  lemma NothingReady(u: Setup, n: Node)
    requires u.Valid()
    ensures !IsReady(u, FRESH, n) && !IsStored(u, FRESH, n)
  {
    hide Plan.Lo, Plan.Hi, Plan.Width, Plan.Top;
    if n.level == 1 {
      NoBatchReady(u, n);
    } else if n.level >= 2 {
      NotReadyAboveLeaves(u.config, P(u), FRESH, n);
    }
  }

  lemma NoBatchReady(u: Setup, n: Node)
    requires u.Valid() && n.level == 1
    ensures !IsReady(u, FRESH, n)
  {
    var c, p := u.config, P(u);
    if InTree(c, p, n) {
      ChildRange(p, n);
      hide Plan.Lo, Plan.Hi, Plan.Width, Plan.Top;
      assert !Stored(c, p, FRESH, Node(n.level - 1, p.Lo(1, n.idx)));
    }
  }

  lemma FreshTreeOk(u: Setup)
    requires u.Valid()
    ensures IsTreeOk(u, FRESH) && !ReadyForFinalization(u.config, FRESH)
  {
    forall n: Node ensures !Stored(u.config, P(u), FRESH, n) {
    }
    assert Closed(u.config, P(u), FRESH) by { hide Stored; }
  }

  lemma InitWorkersOk(u: Setup)
    requires u.Valid()
    ensures var d := Init(u).sched.value;
            && Fleet(u, d) && WorkersOk(d)
            && forall w :: 0 <= w < |d.workers| ==>
                 d.workers[w].completed == {} && d.workers[w].active == if w < u.StarkWorkers() then [MARKER] else []
  {
    StarkCountBound(u.Ready());
    var d := Init(u).sched.value;
    hide StarkCount;
    forall w | 0 <= w < |d.workers| ensures d.workers[w] == InitWorker(w, u.roles[w]) {
      assert u.Ready()[w] == (w, u.roles[w]);
    }
    forall w | 0 <= w < |d.workers| ensures WorkerOk(d.workers[w], d.maxLeafProvers) {
      assert [MARKER][0] == MARKER;
    }
  }

  lemma InitSched(u: Setup)
    requires u.Valid()
    ensures var s := Init(u); SchedLive(u, s.tree, s.sched.value, s.running, s.handlers)
  {
    var d := Init(u).sched.value;
    InitWorkersOk(u);
    StarkCountBound(u.Ready());
    assert Conserved(u, FRESH, d, [], []) by {
      forall n: Node | n.level >= 1 ensures Whereabouts(u, FRESH, d, [], [], n) == Bit(IsReady(u, FRESH, n)) {
        NothingReady(u, n);
      }
    }
    hide Conserved, WorkersOk, StarkCount, IsReady;
    assert SlotsMatch(u, d, [], []) by {
      forall w: nat, x: ActiveProof | w < |d.workers| ensures SlotCount(d, w, x) == ExpectedSlots(u, d, [], [], w, x) {
      }
    }
    assert forall i: nat :: i < u.segments ==> AppAccounted(u, FRESH, d, [], i);
  }

  lemma InitInv(u: Setup)
    requires u.Valid()
    ensures Inv(u, Init(u))
  {
    InitSched(u);
    FreshTreeOk(u);
    forall n: Node ensures Count(u, [], n) == Bit(IsReady(u, FRESH, n)) {
      NothingReady(u, n);
    }
    hide SchedLive, IsTreeOk, IsReady, ReadyForFinalization;
  }

  /** Every state of every run satisfies the invariant, whatever order results arrive in and
    * however the phases of different results interleave. */
  lemma {:induction false} RunKeepsInv(u: Setup, events: seq<Event>)
    requires u.Valid()
    ensures Inv(u, Run(u, events))
  {
    hide Inv, Do, Enabled;
    if events == [] {
      InitInv(u);
    } else {
      var before, e := Run(u, events[..|events| - 1]), events[|events| - 1];
      RunKeepsInv(u, events[..|events| - 1]);
      if Enabled(u, before, e) {
        EventKeepsInv(u, before, e);
      }
    }
  }
}
