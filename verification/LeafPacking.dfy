/** The packing rule, over whole runs: the scheduler's counter of assigned leaves is the number of
  * leaf requests handed out so far, those still running and those whose proof has come back. */
module LeafPacking {
  import opened Protocol
  import opened Recursion
  import opened TreePlan
  import opened PriorityQueue
  import opened ProofDriver
  import opened DriverRefinement
  import opened Scheduler
  import opened SchedulerFacts
  import opened Manager
  import opened ManagerCounting
  import opened ManagerInvariant
  import opened ReceiveEvents
  import opened AccountPhaseProof
  import opened InvariantHolds

  ghost function LeafJobs(jobs: seq<Assigned>): nat {
    if jobs == [] then 0 else LeafJobs(jobs[..|jobs| - 1]) + Bit(jobs[|jobs| - 1].request.LeafRequest?)
  }

  lemma {:induction false} LeafJobsConcat(a: seq<Assigned>, b: seq<Assigned>)
    ensures LeafJobs(a + b) == LeafJobs(a) + LeafJobs(b)
  {
    if b == [] {
      assert a + b == a;
    } else {
      assert (a + b)[..|a + b| - 1] == a + b[..|b| - 1];
      LeafJobsConcat(a, b[..|b| - 1]);
    }
  }

  lemma LeafJobsOne(j: Assigned)
    ensures LeafJobs([j]) == Bit(j.request.LeafRequest?)
  {
    assert [j][..0] == [];
    assert LeafJobs([]) == 0;
  }

  lemma LeafJobsRemove(jobs: seq<Assigned>, i: nat)
    requires i < |jobs|
    ensures LeafJobs(jobs) == LeafJobs(jobs[..i] + jobs[i + 1..]) + Bit(jobs[i].request.LeafRequest?)
  {
    hide LeafJobs;
    assert jobs == jobs[..i] + ([jobs[i]] + jobs[i + 1..]);
    LeafJobsConcat(jobs[..i], [jobs[i]] + jobs[i + 1..]);
    LeafJobsConcat([jobs[i]], jobs[i + 1..]);
    LeafJobsConcat(jobs[..i], jobs[i + 1..]);
    LeafJobsOne(jobs[i]);
  }

  // ---- scheduler operations count what they hand out ----

  ghost predicate Counts(d: Sched, d': Sched, handedOut: seq<Assigned>) {
    && d'.assignedLeaves == d.assignedLeaves + LeafJobs(handedOut)
    && d'.leafPackThreshold == d.leafPackThreshold && d'.maxLeafProvers == d.maxLeafProvers
  }

  ghost function AsSeq(a: Option<Assigned>): seq<Assigned> {
    if a.Some? then [a.value] else []
  }

  lemma PlaceCounts(d: Sched, r: Request)
    ensures var (d', a) := AssignOrQueue(d, r); Counts(d, d', AsSeq(a))
  {
    var (d', a) := AssignOrQueue(d, r);
    if a.Some? {
      LeafJobsOne(a.value);
    }
    hide FindWorker, Insert, Slot, LeafJobs;
    assert LeafJobs([]) == 0 by { NoLeafJobs(); }
  }

  lemma NoLeafJobs()
    ensures LeafJobs([]) == 0
  {
  }

  lemma DequeueCounts(d: Sched)
    ensures var (d', a) := TryDequeue(d); Counts(d, d', AsSeq(a))
  {
    NoLeafJobs();
    if d.pending != [] {
      PlaceCounts(d.(pending := d.pending[1..]), d.pending[0]);
      assert TryDequeue(d) == AssignOrQueue(d.(pending := d.pending[1..]), d.pending[0]) by { hide Insert, FindWorker, Slot; }
    }
    hide AssignOrQueue, LeafJobs;
  }

  lemma {:induction false} DrainCounts(d: Sched)
    ensures var (d', a) := DrainPending(d); Counts(d, d', a)
    decreases |d.pending|
  {
    hide TryDequeue, DrainPending, LeafJobs;
    NoLeafJobs();
    DequeueCounts(d);
    DrainUnfolds(d);
    var (d', a) := TryDequeue(d);
    if a.Some? {
      DrainCounts(d');
      LeafJobsConcat([a.value], DrainPending(d').1);
    }
  }

  lemma CompletionCounts(d: Sched, worker: nat, r: ProofResult)
    requires d.numWorkers > 0
    ensures var c := ApplyCompletion(d, worker, r); c.Applied? ==> Counts(d, c.sched, [])
  {
    NoLeafJobs();
    hide FindId, CompleteOn;
  }

  lemma AccountCounts(d: Sched, h: Handler)
    requires d.numWorkers > 0
    ensures var (d', a) := AccountOn(d, h); Counts(d, d', a)
  {
    NoLeafJobs();
    if h.result.ExecuteE2Result? {
      AccountCountEffect(d, h);
      DrainCounts(Counted(d, h.result.numSegments));
      hide DrainPending, AccountOn, LeafJobs;
    } else {
      var c := ApplyCompletion(d, h.worker, h.result);
      CompletionCounts(d, h.worker, h.result);
      if c.Applied? {
        DequeueCounts(c.sched);
      }
      hide ApplyCompletion, TryDequeue, LeafJobs;
      var handedOut := AccountOn(d, h).1;
      assert [] + handedOut == handedOut;
    }
  }

  // ---- runs ----

  /** Leaf requests handed out so far: those running, and those stored. */
  ghost function HandedOut(s: Sys): nat {
    LeafJobs(s.running) + |s.tree.leaves|
  }

  ghost predicate Tallied(u: Setup, s: Sys) {
    s.tree.status.InProgress? && s.sched.Some? ==>
      var d := s.sched.value;
      d.assignedLeaves == HandedOut(s) && d.leafPackThreshold == u.leafPackThreshold && d.maxLeafProvers == u.maxLeafProvers
  }

  lemma InternalKeepsLeaves(c: Config, t: State, x: InternalState)
    requires c.Valid()
    ensures HandleInternal(c, t, x).0.leaves == t.leaves
  {
    hide InternalFollowUps, InternalIdx;
  }

  lemma AppKeepsLeaves(c: Config, t: State, app: AppState)
    requires c.Valid()
    ensures HandleApp(c, t, app).0.leaves == t.leaves
  {
    hide AppFollowUps;
  }

  lemma CountKeepsLeaves(c: Config, t: State, n: nat)
    requires c.Valid()
    ensures HandleExecuteE2(c, t, n).0.leaves == t.leaves
  {
    hide FlushPendingLeafBatches, TriggerTailProofs;
  }

  lemma OtherResultsKeepLeaves(c: Config, t: State, r: ProofResult)
    requires c.Valid() && !r.LeafResult?
    ensures HandleEnvelope(c, t, r).0.leaves == t.leaves
  {
    hide Sealed, HandleInternal, HandleApp, HandleExecuteE2;
    match r
    case InternalResult(x) => InternalKeepsLeaves(c, t, x);
    case AppResult(app) => AppKeepsLeaves(c, t, app);
    case ExecuteE2Result(_, n) => CountKeepsLeaves(c, t, n);
    case _ =>
  }

  /** A running leaf job adds one new leaf to the tree. */
  lemma LeafJobStores(u: Setup, s: Sys, j: nat, merkle: Option<Bytes>)
    requires u.Valid() && s.tree.status.InProgress? && Running(u, s) && s.sched.Some? && j < |s.running|
    requires s.running[j].request.LeafRequest?
    ensures |HandleEnvelope(u.config, s.tree, ResultOf(u, s.running[j].request, merkle)).0.leaves| == |s.tree.leaves| + 1
  {
    var r := s.running[j].request;
    var n := Asked(u, r);
    RunningJobIsDue(u, s, j);
    LeafRequestRange(u, s.tree, r, n);
    UnsealedNow(u, s.tree);
    hide Running, Asked, Sealed, IsReady, AsksFor, InTree, LeafFollowUps, LeafKey, Plan.SegmentStart, Plan.SegmentEnd, Plan.Top;
    EnvelopeOfLeaf(u.config, s.tree, LeafState(r.segmentStart, r.segmentEnd, Some(LeafProof(r.appProofs))));
    hide HandleEnvelope;
  }

  lemma UnsealedNow(u: Setup, t: State)
    requires u.Valid() && t.status.InProgress? && !ReadyForFinalization(u.config, t)
    ensures !Sealed(u.config, t)
  {
  }

  lemma LeafRequestRange(u: Setup, t: State, r: Request, n: Node)
    requires u.Valid() && AsksFor(u.config, P(u), r, n) && r.LeafRequest? && !IsStored(u, t, n)
    ensures r.segmentStart < u.segments && r.segmentEnd < u.segments && r.segmentStart !in t.leaves
  {
    LeafKeyFacts(u.config, P(u), n.idx);
    NodeHasSegments(P(u), n);
    hide Plan.Children, Plan.SegmentStart, Plan.SegmentEnd, LeafKey, Plan.Width;
  }

  lemma DeliveryTallies(u: Setup, s: Sys, e: Event)
    requires u.Valid() && SchedOk(s) && s.tree.status.InProgress? && Running(u, s) && s.sched.Some? && Tallied(u, s)
    requires Enabled(u, s, e) && Delivers(e)
    ensures Tallied(u, Do(u, s, e))
  {
    hide Receive, HandleEnvelope, Running, LeafJobs, ResultOf;
    ReceivedTree(u, Found(u, s, e), Sender(u, s, e), Sent(u, s, e));
    if e.DeliverJob? {
      JobTallies(u, s, e.job, e.merkle);
    } else {
      OtherResultsKeepLeaves(u.config, s.tree, Sent(u, s, e));
    }
  }

  lemma JobTallies(u: Setup, s: Sys, j: nat, merkle: Option<Bytes>)
    requires u.Valid() && s.tree.status.InProgress? && Running(u, s) && s.sched.Some? && j < |s.running|
    ensures LeafJobs(s.running[..j] + s.running[j + 1..]) + |HandleEnvelope(u.config, s.tree, ResultOf(u, s.running[j].request, merkle)).0.leaves|
            == HandedOut(s)
  {
    hide HandleEnvelope, Running, LeafJobs;
    LeafJobsRemove(s.running, j);
    if s.running[j].request.LeafRequest? {
      LeafJobStores(u, s, j, merkle);
    } else {
      OtherResultsKeepLeaves(u.config, s.tree, ResultOf(u, s.running[j].request, merkle));
    }
  }

  lemma ReceivedTree(u: Setup, s: Sys, worker: nat, r: ProofResult)
    requires u.config.Valid() && SchedOk(s) && s.tree.status.InProgress?
    ensures var s' := Receive(u, s, worker, r);
            s'.tree == HandleEnvelope(u.config, s.tree, r).0 && s'.running == s.running && s'.sched == s.sched
  {
    hide HandleProofResult;
  }

  lemma EventTallies(u: Setup, s: Sys, e: Event)
    requires u.Valid() && SchedOk(s) && Inv(u, s) && Tallied(u, s) && Enabled(u, s, e)
    ensures Tallied(u, Do(u, s, e))
  {
    hide Receive, AccountOn, AssignOrQueue, ReadyForFinalization, FinalArtifact, LeafJobs, Inv, Running;
    if !s.tree.status.InProgress? {
      hide Do;
      SettledStays(u, s, e);
    } else if s.sched.None? {
      NoStoreStays(u, s, e);
    } else if Delivers(e) {
      assert Running(u, s) by { InvRuns(u, s); }
      DeliveryTallies(u, s, e);
    } else {
      match e
      case Account(i, _) =>
        AccountCounts(s.sched.value, s.handlers[i]);
        LeafJobsConcat(s.running, AccountOn(s.sched.value, s.handlers[i]).1);
      case Enqueue(i) =>
        PlaceCounts(s.sched.value, s.handlers[i].followUps[0]);
        LeafJobsConcat(s.running, AsSeq(AssignOrQueue(s.sched.value, s.handlers[i].followUps[0]).1));
      case _ =>
    }
  }

  lemma InvRuns(u: Setup, s: Sys)
    requires u.Valid() && Inv(u, s) && s.tree.status.InProgress?
    ensures Running(u, s)
  {
  }

  lemma NoStoreStays(u: Setup, s: Sys, e: Event)
    requires u.config.Valid() && SchedOk(s) && Enabled(u, s, e) && s.sched.None?
    ensures Do(u, s, e).sched.None?
  {
    hide HandleEnvelope, ReadyForFinalization, FinalArtifact;
  }

  /** In every live state the counter is the number of leaf requests handed out. */
  lemma {:induction false} CounterIsHandedOut(u: Setup, events: seq<Event>)
    requires u.Valid()
    ensures Tallied(u, Run(u, events))
  {
    hide Do, Enabled, Inv, Tallied;
    if events == [] {
      NothingHandedOut(u);
    } else {
      var s, e := Run(u, events[..|events| - 1]), events[|events| - 1];
      CounterIsHandedOut(u, events[..|events| - 1]);
      RunKeepsInv(u, events[..|events| - 1]);
      if Enabled(u, s, e) {
        EventTallies(u, s, e);
      }
    }
  }

  lemma NothingHandedOut(u: Setup)
    ensures Tallied(u, Init(u))
  {
    NoLeafJobs();
  }

  /** The packing rule: in every live state of every run, a leaf that would go to a busy worker does so
    * only while fewer than the threshold have been handed out and no STARK worker is free, and to a
    * worker with room of least load. */
  lemma PackingRule(u: Setup, events: seq<Event>, i: nat)
    requires u.Valid()
    requires var s := Run(u, events);
             && s.tree.status.InProgress? && s.sched.Some? && FindWorker(s.sched.value, LeafProve) == Some(i)
             && i < |s.sched.value.workers| && s.sched.value.workers[i].active != []
    ensures var s := Run(u, events);
            var workers := s.sched.value.workers;
            && HandedOut(s) < u.leafPackThreshold && |workers[i].active| < u.maxLeafProvers
            && (forall j :: 0 <= j < |workers| ==> !FreeForLeaf(workers[j]))
            && (forall j :: 0 <= j < |workers| && PackableForLeaf(workers[j], u.maxLeafProvers) ==> |workers[i].active| <= |workers[j].active|)
  {
    CounterIsHandedOut(u, events);
    RunKeepsInv(u, events);
    hide Run, LeafJobs, LeastLoaded, PackingKey;
    var d := Run(u, events).sched.value;
    assert forall j :: 0 <= j < |d.workers| ==> d.workers[j].activeCount == |d.workers[j].active|;
  }
}
