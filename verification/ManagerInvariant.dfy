/** The invariant of a live manager, piece by piece. */
module ManagerInvariant {
  import opened Protocol
  import opened TreePlan
  import opened PriorityQueue
  import opened ProofDriver
  import opened DriverRefinement
  import opened Scheduler
  import opened SchedulerFacts
  import opened Manager
  import opened ManagerCounting

  ghost predicate IsReady(u: Setup, t: State, n: Node)
    requires u.Valid()
  {
    Ready(u.config, P(u), t, n)
  }

  ghost predicate IsStored(u: Setup, t: State, n: Node)
    requires u.Valid()
  {
    Stored(u.config, P(u), t, n)
  }

  ghost predicate IsTreeOk(u: Setup, t: State)
    requires u.Valid()
  {
    TreeOk(u.config, P(u), t)
  }

  // ---- conservation ----

  /** Where the one copy of each job is: asked for but not queued, queued, running, or done. */
  ghost function Whereabouts(u: Setup, t: State, d: Sched, running: seq<Assigned>, handlers: seq<Handler>, n: Node): nat
    requires u.Valid()
  {
    Handlers(u, handlers, Asking(n)) + Count(u, d.pending, n) + Jobs(u, running, Asking(n)) + Bit(IsStored(u, t, n))
  }

  ghost predicate Conserved(u: Setup, t: State, d: Sched, running: seq<Assigned>, handlers: seq<Handler>)
    requires u.Valid()
  {
    forall n: Node :: n.level >= 1 ==> Whereabouts(u, t, d, running, handlers, n) == Bit(IsReady(u, t, n))
  }

  // ---- slots ----

  /** Whether worker `w` still owes app proofs, as far as the scheduler has been told. */
  ghost predicate Owes(u: Setup, d: Sched, w: nat)
    requires u.Valid() && w < |d.workers|
  {
    w < u.StarkWorkers() && !(d.numSegments.Some? && d.workers[w].completed == Shard(w, u.segments, u.StarkWorkers()))
  }

  ghost function ExpectedSlots(u: Setup, d: Sched, running: seq<Assigned>, handlers: seq<Handler>, w: nat, x: ActiveProof): nat
    requires u.Valid() && w < |d.workers|
  {
    Bit(x == MARKER && Owes(u, d, w)) + Jobs(u, running, SlotOn(w, x)) + Handlers(u, handlers, SlotOn(w, x))
  }

  /** A worker's slots are its marker while it owes app proofs, its running jobs, and the
    * received results not yet accounted for. */
  ghost predicate SlotsMatch(u: Setup, d: Sched, running: seq<Assigned>, handlers: seq<Handler>)
    requires u.Valid()
  {
    forall w: nat, x: ActiveProof :: w < |d.workers| ==> SlotCount(d, w, x) == ExpectedSlots(u, d, running, handlers, w, x)
  }

  // ---- messages ----

  /** Each received app result is accounted for once, on the worker that owns its segment. */
  ghost predicate AppsMatch(u: Setup, t: State, d: Sched, handlers: seq<Handler>)
    requires u.Valid()
  {
    && |d.workers| >= u.StarkWorkers()
    && (forall w: nat :: w < u.StarkWorkers() ==> d.workers[w].completed <= Shard(w, u.segments, u.StarkWorkers()))
    && (forall i: nat :: i < u.segments ==> AppAccounted(u, t, d, handlers, i))
  }

  ghost predicate AppAccounted(u: Setup, t: State, d: Sched, handlers: seq<Handler>, i: nat)
    requires u.Valid() && |d.workers| >= u.StarkWorkers()
  {
    Handlers(u, handlers, AppFrom(i)) + Bit(i in d.workers[i % u.StarkWorkers()].completed) == Bit(i in t.apps)
  }

  ghost predicate CountMatches(u: Setup, t: State, d: Sched, handlers: seq<Handler>)
    requires u.Valid()
  {
    && (d.numSegments.Some? ==> d.numSegments.value == u.segments)
    && Handlers(u, handlers, CountMessage) + Bit(d.numSegments.Some?) == Bit(t.numSegments.Some?)
  }

  ghost predicate FromApps(hs: seq<Handler>) {
    forall h :: h in hs ==> h.result.AppResult? || h.result.ExecuteE2Result?
  }

  /** Until the scheduler knows the count, no recursion job has been dispatched. */
  ghost predicate Gate(t: State, d: Sched, running: seq<Assigned>, handlers: seq<Handler>) {
    d.numSegments.None? ==> running == [] && t.leaves == map[] && t.internals == map[] && t.evm.None? && FromApps(handlers)
  }

  // ---- components ----

  ghost predicate Fleet(u: Setup, d: Sched)
    requires u.Valid()
  {
    && |d.workers| == |u.roles| && d.numWorkers == u.StarkWorkers()
    && forall i :: 0 <= i < |u.roles| ==> d.workers[i].role == u.roles[i]
  }

  ghost predicate JobsOk(u: Setup, running: seq<Assigned>)
    requires u.Valid()
  {
    forall j :: j in running ==> Good(u, j.request) && j.workerId < |u.roles|
  }

  ghost predicate HandlerOk(u: Setup, t: State, h: Handler)
    requires u.Valid()
  {
    && AllGood(u, h.followUps)
    && (h.sealed ==> ReadyForFinalization(u.config, t))
    && h.worker < |u.roles|
    && match h.result
       case AppResult(a) => a.segmentIdx < u.segments && h.worker == a.segmentIdx % u.StarkWorkers()
       case ExecuteE2Result(_, n) => n == u.segments
       case ErrorResult(_, _) => false
       case _ => true
  }

  ghost predicate HandlersOk(u: Setup, t: State, hs: seq<Handler>)
    requires u.Valid()
  {
    forall h :: h in hs ==> HandlerOk(u, t, h)
  }

  /** Everything but the wake-up condition, which breaks for a moment inside an operation. */
  ghost predicate SchedCore(u: Setup, t: State, d: Sched, running: seq<Assigned>, handlers: seq<Handler>)
    requires u.Valid()
  {
    && Fleet(u, d) && WorkersOk(d) && AllGood(u, d.pending) && JobsOk(u, running)
    && Conserved(u, t, d, running, handlers)
    && SlotsMatch(u, d, running, handlers)
    && AppsMatch(u, t, d, handlers) && CountMatches(u, t, d, handlers)
    && Gate(t, d, running, handlers)
  }

  ghost predicate SchedLive(u: Setup, t: State, d: Sched, running: seq<Assigned>, handlers: seq<Handler>)
    requires u.Valid()
  {
    SchedCore(u, t, d, running, handlers) && WillWake(d)
  }

  /** The pieces of `SchedCore` put together, so that each can be proved apart. */
  lemma CoreFromPieces(u: Setup, t: State, d: Sched, running: seq<Assigned>, hs: seq<Handler>)
    requires u.Valid() && Fleet(u, d) && WorkersOk(d) && AllGood(u, d.pending) && JobsOk(u, running)
    requires Conserved(u, t, d, running, hs) && SlotsMatch(u, d, running, hs)
    requires AppsMatch(u, t, d, hs) && CountMatches(u, t, d, hs) && Gate(t, d, running, hs)
    ensures SchedCore(u, t, d, running, hs)
  {
  }

  lemma CoreToPieces(u: Setup, t: State, d: Sched, running: seq<Assigned>, hs: seq<Handler>)
    requires u.Valid() && SchedCore(u, t, d, running, hs)
    ensures Fleet(u, d) && WorkersOk(d) && AllGood(u, d.pending) && JobsOk(u, running)
    ensures Conserved(u, t, d, running, hs) && SlotsMatch(u, d, running, hs)
    ensures AppsMatch(u, t, d, hs) && CountMatches(u, t, d, hs) && Gate(t, d, running, hs)
  {
  }

  // ---- history ----

  ghost predicate HistoryOk(u: Setup, requested: seq<Request>)
    requires u.Valid()
  {
    AllGood(u, requested) && forall n: Node :: Count(u, requested, n) <= 1
  }

  ghost predicate HistoryExact(u: Setup, t: State, requested: seq<Request>)
    requires u.Valid()
  {
    AllGood(u, requested) && forall n: Node :: Count(u, requested, n) == Bit(IsReady(u, t, n))
  }

  ghost predicate SealerInFlight(hs: seq<Handler>) {
    exists i :: 0 <= i < |hs| && hs[i].sealed && !hs[i].accounted
  }

  ghost predicate Delivered(s: Sys) {
    s.appsSent == s.tree.apps.Keys && (s.countSent <==> s.tree.numSegments.Some?)
  }

  ghost predicate Running(u: Setup, s: Sys)
    requires u.Valid()
  {
    && IsTreeOk(u, s.tree) && Delivered(s) && HandlersOk(u, s.tree, s.handlers) && HistoryExact(u, s.tree, s.requested)
    && (ReadyForFinalization(u.config, s.tree) ==> SealerInFlight(s.handlers))
    && (s.sched.None? ==> ReadyForFinalization(u.config, s.tree))
    && (s.sched.Some? ==> SchedLive(u, s.tree, s.sched.value, s.running, s.handlers))
  }

  ghost predicate Finished(u: Setup, s: Sys)
    requires u.Valid()
  {
    && IsTreeOk(u, s.tree) && ReadyForFinalization(u.config, s.tree) && HistoryExact(u, s.tree, s.requested)
    && (u.persists ==> s.persisted == FinalArtifact(u.config, s.tree))
  }

  /** The invariant: in full while the proof is in progress, what must last once it has completed,
    * and the history whatever happens. */
  ghost predicate Inv(u: Setup, s: Sys)
    requires u.Valid()
  {
    && (s.tree.status.InProgress? ==> Running(u, s))
    && (s.tree.status.Completed? ==> Finished(u, s))
    && HistoryOk(u, s.requested)
  }

  // ---- sealing and completeness of the tree ----

  lemma HistoryExactIsOk(u: Setup, t: State, requested: seq<Request>)
    requires u.Valid() && HistoryExact(u, t, requested)
    ensures HistoryOk(u, requested)
  {
  }

  ghost function Root(u: Setup): Node
    requires u.Valid()
  {
    Node(Last(u.config, P(u)), 0)
  }

  lemma ReadyIsRootStored(u: Setup, t: State)
    requires u.Valid() && IsTreeOk(u, t)
    ensures ReadyForFinalization(u.config, t) <==> IsStored(u, t, Root(u))
    ensures ReadyForFinalization(u.config, t) ==> FinalArtifact(u.config, t) == Some(P(u).Proof(Root(u)))
  {
    assert u.config.FinalLayer(u.segments) == P(u).FinalLayer();
  }

  /** Everything below a ready node is stored. */
  lemma ReadyMeansChild(u: Setup, t: State, q: Node, n: Node)
    requires u.Valid() && IsReady(u, t, q) && q.level == n.level + 1
    requires P(u).Lo(q.level, q.idx) <= n.idx < P(u).Hi(q.level, q.idx)
    ensures IsStored(u, t, n)
  {
    assert ChildrenStored(u.config, P(u), t, q);
    hide IsReady, ChildrenStored, Stored, Plan.Lo, Plan.Hi, Plan.Width, Plan.Top;
    ChildStored(u.config, P(u), t, q, n.idx);
    assert Node(q.level - 1, n.idx) == n;
  }

  lemma StoredMeansChild(u: Setup, t: State, q: Node, n: Node)
    requires u.Valid() && IsTreeOk(u, t) && IsStored(u, t, q) && q.level == n.level + 1
    requires P(u).Lo(q.level, q.idx) <= n.idx < P(u).Hi(q.level, q.idx)
    ensures IsStored(u, t, n)
  {
    hide IsReady, IsStored, IsTreeOk, Plan.Lo, Plan.Hi, Plan.Width;
    StoredMeansReady(u, t, q);
    ReadyMeansChild(u, t, q, n);
  }

  /** Where a level has one node and that node is ready, everything below is stored. */
  lemma {:induction false} ReadyMeansBelow(u: Setup, t: State, k: nat, n: Node)
    requires u.Valid() && IsTreeOk(u, t) && P(u).Width(k) == 1 && IsReady(u, t, Node(k, 0))
    requires n.level < k && n.idx < P(u).Width(n.level)
    ensures IsStored(u, t, n)
    decreases k - n.level
  {
    hide Plan.Lo, Plan.Hi, Plan.Width, Plan.Top, IsReady, IsStored, IsTreeOk;
    var q := P(u).Parent(n);
    ParentInRange(P(u), n);
    if q.level < k {
      ReadyMeansBelow(u, t, k, q);
      StoredMeansChild(u, t, q, n);
    } else {
      ReadyMeansChild(u, t, q, n);
    }
  }

  lemma StoredMeansReady(u: Setup, t: State, q: Node)
    requires u.Valid() && IsTreeOk(u, t) && IsStored(u, t, q) && q.level >= 1
    ensures IsReady(u, t, q)
  {
    hide Plan.Lo, Plan.Hi, Plan.Width, Plan.Top, Stored, Ready;
  }

  /** The root is stored only over a complete tree. */
  lemma RootMeansAll(u: Setup, t: State, n: Node)
    requires u.Valid() && IsTreeOk(u, t) && IsStored(u, t, Root(u)) && InTree(u.config, P(u), n)
    ensures IsStored(u, t, n)
  {
    LastWidth(u);
    hide Plan.Lo, Plan.Hi, Plan.Width, Plan.Top, IsReady, IsStored, IsTreeOk, Last;
    if n.level < Last(u.config, P(u)) {
      StoredMeansReady(u, t, Root(u));
      ReadyMeansBelow(u, t, Root(u).level, n);
    }
  }

  lemma LastWidth(u: Setup)
    requires u.Valid()
    ensures P(u).Width(Last(u.config, P(u))) == 1 && Last(u.config, P(u)) >= 1
  {
    TopWidth(P(u));
  }

  lemma MissingMeansUnsealed(u: Setup, t: State, n: Node)
    requires u.Valid() && IsTreeOk(u, t) && InTree(u.config, P(u), n) && !IsStored(u, t, n)
    ensures !ReadyForFinalization(u.config, t)
  {
    ReadyIsRootStored(u, t);
    if ReadyForFinalization(u.config, t) {
      RootMeansAll(u, t, n);
    }
  }

  // ---- changes that do not touch the tree's contents ----

  ghost predicate SameContents(t: State, t': State) {
    t'.numSegments == t.numSegments && t'.apps == t.apps && t'.leaves == t.leaves && t'.internals == t.internals && t'.evm == t.evm
  }

  lemma SameContentsReady(u: Setup, t: State, t': State)
    requires u.Valid() && SameContents(t, t')
    ensures forall n: Node :: IsStored(u, t', n) <==> IsStored(u, t, n)
    ensures forall n: Node :: IsReady(u, t', n) <==> IsReady(u, t, n)
    ensures IsTreeOk(u, t) ==> IsTreeOk(u, t')
    ensures ReadyForFinalization(u.config, t') <==> ReadyForFinalization(u.config, t)
    ensures FinalArtifact(u.config, t') == FinalArtifact(u.config, t)
  {
    var c, p := u.config, P(u);
    assert forall n: Node :: Stored(c, p, t', n) <==> Stored(c, p, t, n);
    forall n: Node ensures Ready(c, p, t', n) <==> Ready(c, p, t, n) {
      hide Stored, Plan.Lo, Plan.Hi, Plan.Width;
      if n.level >= 1 {
        assert ChildrenStored(c, p, t', n) <==> ChildrenStored(c, p, t, n);
      }
    }
    if TreeOk(c, p, t) {
      assert Closed(c, p, t') by { hide Ready, Stored; }
    }
  }
}
