/** What every run of the manager guarantees, in every state it passes through. */
module Safety {
  import opened Arithmetic
  import opened Protocol
  import opened Recursion
  import opened TreePlan
  import opened ProofDriver
  import opened DriverRefinement
  import opened PriorityQueue
  import opened Scheduler
  import opened SchedulerFacts
  import opened Manager
  import opened ManagerCounting
  import opened ManagerInvariant
  import opened DispatchPhases
  import opened AccountPhaseProof
  import opened InvariantHolds

  // ---- what is built ----

  /** Whatever order results arrived in, the artifact is the sequential fold of the app proofs,
    * and so covers segments `0 .. segments - 1`, in order, each exactly once. */
  lemma ArtifactIsSequentialFold(u: Setup, events: seq<Event>)
    requires u.Valid()
    requires var s := Run(u, events); s.tree.status.Completed? || (s.tree.status.InProgress? && ReadyForFinalization(u.config, s.tree))
    ensures var s := Run(u, events);
            && FinalArtifact(u.config, s.tree) == Some(P(u).Proof(Root(u)))
            && (s.tree.status.Completed? && u.persists ==> s.persisted == Some(P(u).Proof(Root(u))))
    ensures Segments(P(u).Proof(Root(u))) == Interval(0, u.segments)
  {
    RunKeepsInv(u, events);
    ReadyIsRootStored(u, Run(u, events).tree);
    RootCoversAllSegments(P(u));
  }

  /** Two runs that complete agree on the artifact, whatever their arrival orders. */
  lemma OrderIndependence(u: Setup, events: seq<Event>, events': seq<Event>)
    requires u.Valid() && Run(u, events).tree.status.Completed? && Run(u, events').tree.status.Completed?
    ensures FinalArtifact(u.config, Run(u, events).tree) == FinalArtifact(u.config, Run(u, events').tree)
    ensures u.persists ==> Run(u, events).persisted == Run(u, events').persisted
  {
    ArtifactIsSequentialFold(u, events);
    ArtifactIsSequentialFold(u, events');
  }

  /** What a worker that serves `r` returns. */
  ghost function Folded(r: Request): Payload {
    match r
    case LeafRequest(children, _, _) => LeafProof(children)
    case InternalRequest(children, layer, _, _, _, _, _) => InternalProof(layer, children)
    case EvmRequest(inner, _, _) => EvmProof(inner)
  }

  /** Every request ever emitted asks for its node's own fold, and is flagged final just when
    * it asks for node 0 of the final layer. */
  lemma RequestsFollowPlan(u: Setup, events: seq<Event>, r: Request)
    requires u.Valid() && r in Run(u, events).requested
    ensures InTree(u.config, P(u), Asked(u, r)) && Folded(r) == P(u).Proof(Asked(u, r))
    ensures r.InternalRequest? ==> (r.isFinalProof <==> r.layerIdx == P(u).FinalLayer())
    ensures r.InternalRequest? && r.isFinalProof ==> Asked(u, r) == Node(P(u).Top(), 0)
  {
    RunKeepsInv(u, events);
    hide Run, Good, Asked;
    assert Good(u, r);
    GoodFollowsPlan(u, r);
  }

  lemma GoodFollowsPlan(u: Setup, r: Request)
    requires u.Valid() && Good(u, r)
    ensures InTree(u.config, P(u), Asked(u, r)) && Folded(r) == P(u).Proof(Asked(u, r))
    ensures r.InternalRequest? ==> (r.isFinalProof <==> r.layerIdx == P(u).FinalLayer())
    ensures r.InternalRequest? && r.isFinalProof ==> Asked(u, r) == Node(P(u).Top(), 0)
  {
    TopWidth(P(u));
    hide Asked, Plan.Children, Plan.SegmentStart, Plan.SegmentEnd, TailOk, Plan.Width;
  }

  // ---- exactly once ----

  /** No node is ever asked for twice. */
  lemma AskedAtMostOnce(u: Setup, events: seq<Event>, n: Node)
    requires u.Valid()
    ensures Count(u, Run(u, events).requested, n) <= 1
  {
    RunKeepsInv(u, events);
    hide Run, Count;
  }

  /** A completed proof asked for every node of the tree above the app proofs, and no other. */
  lemma AskedExactlyTheTree(u: Setup, events: seq<Event>, n: Node)
    requires u.Valid() && Run(u, events).tree.status.Completed?
    ensures Count(u, Run(u, events).requested, n) == Bit(n.level >= 1 && InTree(u.config, P(u), n))
  {
    var s := Run(u, events);
    RunKeepsInv(u, events);
    hide Run, Count;
    CompleteTree(u, s.tree, n);
  }

  lemma CompleteTree(u: Setup, t: State, n: Node)
    requires u.Valid() && IsTreeOk(u, t) && ReadyForFinalization(u.config, t)
    ensures IsReady(u, t, n) <==> n.level >= 1 && InTree(u.config, P(u), n)
  {
    ReadyIsRootStored(u, t);
    hide Plan.Lo, Plan.Hi, Plan.Width, Plan.Top, ReadyForFinalization;
    if n.level >= 1 && InTree(u.config, P(u), n) {
      RootMeansAll(u, t, n);
      assert Stored(u.config, P(u), t, n);
    }
  }

  /** The distinct nodes of a request history. */
  ghost function AskedNodes(u: Setup, rs: seq<Request>, lo: nat, hi: nat): set<Node>
    requires u.Valid()
  {
    set r | r in rs && lo <= Asked(u, r).level <= hi :: Asked(u, r)
  }

  /** How many requests of a history are for levels `lo .. hi`. */
  ghost function RequestsInLevels(u: Setup, rs: seq<Request>, lo: nat, hi: nat): nat
    requires u.Valid()
  {
    if rs == [] then 0
    else RequestsInLevels(u, rs[..|rs| - 1], lo, hi) + Bit(lo <= Asked(u, rs[|rs| - 1]).level <= hi)
  }

  lemma {:induction false} RequestsAreNodes(u: Setup, rs: seq<Request>, lo: nat, hi: nat)
    requires u.Valid() && forall n: Node :: Count(u, rs, n) <= 1
    ensures RequestsInLevels(u, rs, lo, hi) == |AskedNodes(u, rs, lo, hi)|
  {
    hide Asked;
    if rs != [] {
      var m, front := |rs| - 1, rs[..|rs| - 1];
      var n := Asked(u, rs[m]);
      forall k: Node ensures Count(u, front, k) <= 1 {
        assert Count(u, rs, k) <= 1;
      }
      RequestsAreNodes(u, front, lo, hi);
      assert Count(u, rs, n) <= 1;
      assert forall r :: r in rs <==> r in front || r == rs[m];
      if n in AskedNodes(u, front, lo, hi) {
        var r :| r in front && Asked(u, r) == n;
        InIsCounted(u, front, r);
        assert false;
      }
      if lo <= n.level <= hi {
        assert AskedNodes(u, rs, lo, hi) == AskedNodes(u, front, lo, hi) + {n};
      } else {
        assert AskedNodes(u, rs, lo, hi) == AskedNodes(u, front, lo, hi);
      }
    }
  }

  ghost function LevelNodes(p: Plan, k: nat): set<Node>
    requires p.Valid()
  {
    set i: nat | i < p.Width(k) :: Node(k, i)
  }

  ghost function NodesBetween(p: Plan, lo: nat, hi: nat): set<Node>
    requires p.Valid()
  {
    if hi < lo then {} else LevelNodes(p, hi) + if hi == 0 then {} else NodesBetween(p, lo, hi - 1)
  }

  lemma {:induction false} Prefix(k: nat, n: nat)
    ensures |set i: nat | i < n :: Node(k, i)| == n
  {
    if n == 0 {
      assert (set i: nat | i < n :: Node(k, i)) == {};
    } else {
      Prefix(k, n - 1);
      assert (set i: nat | i < n :: Node(k, i)) == (set i: nat | i < n - 1 :: Node(k, i)) + {Node(k, n - 1)};
    }
  }

  lemma {:induction false} BetweenMembers(p: Plan, lo: nat, hi: nat, n: Node)
    requires p.Valid()
    ensures n in NodesBetween(p, lo, hi) <==> lo <= n.level <= hi && n.idx < p.Width(n.level)
    decreases hi
  {
    hide Plan.Width;
    if lo <= hi && hi > 0 {
      BetweenMembers(p, lo, hi - 1, n);
    }
  }

  lemma LevelIsNew(p: Plan, lo: nat, k: nat)
    requires p.Valid() && 1 <= lo <= k
    ensures |NodesBetween(p, lo, k)| == p.Width(k) + |NodesBetween(p, lo, k - 1)|
  {
    Prefix(k, p.Width(k));
    hide Plan.Width;
    forall n: Node ensures n in NodesBetween(p, lo, k - 1) ==> n !in LevelNodes(p, k) {
      BetweenMembers(p, lo, k - 1, n);
    }
  }

  lemma {:induction false} BetweenSize(p: Plan, k: nat)
    requires p.Valid()
    ensures |NodesBetween(p, 2, k)| == InternalNodes(p, k)
  {
    if k >= 2 {
      BetweenSize(p, k - 1);
      LevelIsNew(p, 2, k);
      hide Plan.Width, NodesBetween;
    }
  }

  ghost function InternalRequests(rs: seq<Request>): nat {
    if rs == [] then 0 else InternalRequests(rs[..|rs| - 1]) + Bit(rs[|rs| - 1].InternalRequest?)
  }

  lemma {:induction false} InternalRequestsByLevel(u: Setup, rs: seq<Request>)
    requires u.Valid() && AllGood(u, rs)
    ensures InternalRequests(rs) == RequestsInLevels(u, rs, 2, P(u).Top())
  {
    if rs != [] {
      InternalRequestsByLevel(u, rs[..|rs| - 1]);
      assert Good(u, rs[|rs| - 1]);
    }
  }

  lemma HistoryInTree(u: Setup, rs: seq<Request>, lo: nat, hi: nat)
    requires u.Valid() && HistoryOk(u, rs)
    ensures RequestsInLevels(u, rs, lo, hi) <= |NodesBetween(P(u), lo, hi)|
    ensures (forall n: Node :: n in NodesBetween(P(u), lo, hi) ==> Count(u, rs, n) == 1) ==>
              RequestsInLevels(u, rs, lo, hi) == |NodesBetween(P(u), lo, hi)|
  {
    var asked, nodes := AskedNodes(u, rs, lo, hi), NodesBetween(P(u), lo, hi);
    RequestsAreNodes(u, rs, lo, hi);
    hide Count, Asked, NodesBetween, Plan.Width;
    forall n | n in asked ensures n in nodes {
      var r :| r in rs && Asked(u, r) == n;
      assert Good(u, r);
      BetweenMembers(P(u), lo, hi, n);
    }
    SubsetSize(asked, nodes);
    if forall n: Node :: n in nodes ==> Count(u, rs, n) == 1 {
      forall n | n in nodes ensures n in asked {
        BetweenMembers(P(u), lo, hi, n);
        var r := CountedIsIn(u, rs, n);
      }
      assert asked == nodes;
    }
  }

  lemma InternalJobsOfHistory(u: Setup, rs: seq<Request>)
    requires u.Valid() && HistoryOk(u, rs)
    ensures P(u).Width(1) >= 1
    ensures InternalRequests(rs) <= P(u).FinalLayer() + 1 + (P(u).Width(1) - 1) / (u.config.internalArity - 1)
    ensures (forall n: Node :: n in NodesBetween(P(u), 2, P(u).Top()) ==> Count(u, rs, n) == 1) ==>
              InternalRequests(rs) == InternalNodes(P(u), P(u).Top())
  {
    hide InternalRequests, Count, Plan.Width, NodesBetween, InternalNodes, Plan.FinalLayer, Plan.Top, Good, RequestsInLevels;
    InternalRequestsByLevel(u, rs);
    HistoryInTree(u, rs, 2, P(u).Top());
    BetweenSize(P(u), P(u).Top());
    InternalJobsBound(P(u));
  }

  /** At most `(F + 1) + (n - 1) / (a - 1)` internal proofs are asked for in any run, and in a
    * completed run exactly the tree's internal nodes. */
  lemma InternalJobsOfARun(u: Setup, events: seq<Event>)
    requires u.Valid()
    ensures P(u).Width(1) >= 1
    ensures InternalRequests(Run(u, events).requested) <= P(u).FinalLayer() + 1 + (P(u).Width(1) - 1) / (u.config.internalArity - 1)
    ensures Run(u, events).tree.status.Completed? ==> InternalRequests(Run(u, events).requested) == InternalNodes(P(u), P(u).Top())
  {
    var s, p := Run(u, events), P(u);
    RunKeepsInv(u, events);
    hide InternalRequests, Count, Plan.Width, NodesBetween, InternalNodes, Plan.FinalLayer, Run, HistoryOk;
    InternalJobsOfHistory(u, s.requested);
    if s.tree.status.Completed? {
      forall n: Node | n in NodesBetween(p, 2, p.Top()) ensures Count(u, s.requested, n) == 1 {
        BetweenMembers(p, 2, p.Top(), n);
        AskedExactlyTheTree(u, events, n);
      }
    }
  }

  /** The tail metadata sent with the final internal request tells the truth about the run:
    * `node_idx + 1` is how many internal proofs a completed run has asked for. */
  lemma TailMetadataMatchesRun(u: Setup, events: seq<Event>, r: Request)
    requires u.Valid() && Run(u, events).tree.status.Completed?
    requires r in Run(u, events).requested && r.InternalRequest?
    ensures r.deferralTail.Some? <==> r.isFinalProof && u.config.deferralCircuits > 0
    ensures r.deferralTail.Some? ==>
              && r.deferralTail.value.nodeIdx + 1 == InternalRequests(Run(u, events).requested)
              && r.deferralTail.value.recursiveLayer == r.layerIdx == P(u).FinalLayer()
  {
    RunKeepsInv(u, events);
    InternalJobsOfARun(u, events);
    assert Good(u, r);
  }

  // ---- where work is ----

  /** Each node above the app proofs is at all times unasked, or in exactly one place: in a
    * handler's hand, queued, running, or stored. */
  lemma WorkIsConserved(u: Setup, events: seq<Event>, n: Node)
    requires u.Valid() && n.level >= 1
    requires var s := Run(u, events); s.tree.status.InProgress? && s.sched.Some?
    ensures var s := Run(u, events);
            Handlers(u, s.handlers, Asking(n)) + Count(u, s.sched.value.pending, n) + Jobs(u, s.running, Asking(n)) + Bit(IsStored(u, s.tree, n))
            == Count(u, s.requested, n) <= 1
  {
    var s := Run(u, events);
    RunKeepsInv(u, events);
    hide Run, WorkersOk, Jobs, Handlers, Count;
    assert Whereabouts(u, s.tree, s.sched.value, s.running, s.handlers, n) == Bit(IsReady(u, s.tree, n));
  }

  /** The slot rules and the wake-up rule, in every live state. */
  lemma SchedulerStaysSound(u: Setup, events: seq<Event>)
    requires u.Valid()
    requires var s := Run(u, events); s.tree.status.InProgress? && s.sched.Some?
    ensures var d := Run(u, events).sched.value; WorkersOk(d) && WillWake(d)
  {
    RunKeepsInv(u, events);
    hide Run;
  }

  /** A worker's marker is gone exactly when the count is known and the worker's received set is
    * its whole shard, whichever of the two came last. */
  lemma MarkerGoneIffShardDone(u: Setup, events: seq<Event>, w: nat)
    requires u.Valid() && w < u.StarkWorkers()
    requires var s := Run(u, events); s.tree.status.InProgress? && s.sched.Some?
    ensures var d := Run(u, events).sched.value;
            && w < |d.workers|
            && (MARKER !in d.workers[w].active <==>
                d.numSegments == Some(u.segments) && forall i: nat :: i < u.segments && i % u.StarkWorkers() == w ==> i in d.workers[w].completed)
  {
    var s := Run(u, events);
    var d := s.sched.value;
    RunKeepsInv(u, events);
    hide Run;
    MarkerIff(u, s.tree, d, s.running, s.handlers, w);
  }

  lemma MarkerIff(u: Setup, t: State, d: Sched, running: seq<Assigned>, hs: seq<Handler>, w: nat)
    requires u.Valid() && SchedLive(u, t, d, running, hs) && w < u.StarkWorkers()
    ensures w < |d.workers|
    ensures MARKER !in d.workers[w].active <==>
              d.numSegments == Some(u.segments) && forall i: nat :: i < u.segments && i % u.StarkWorkers() == w ==> i in d.workers[w].completed
  {
    LiveIsCore(u, t, d, running, hs);
    CoreToPieces(u, t, d, running, hs);
    hide SchedCore, SchedLive, WorkersOk;
    NoJobHoldsMarker(u, running, w);
    NoResultHoldsMarker(u, hs, w);
    hide Jobs, Handlers;
    assert SlotCount(d, w, MARKER) == ExpectedSlots(u, d, running, hs, w, MARKER);
    if forall i: nat :: i < u.segments && i % u.StarkWorkers() == w ==> i in d.workers[w].completed {
      assert d.workers[w].completed == Shard(w, u.segments, u.StarkWorkers());
    }
  }

  lemma {:induction false} NoJobHoldsMarker(u: Setup, running: seq<Assigned>, w: nat)
    requires u.Valid()
    ensures Jobs(u, running, SlotOn(w, MARKER)) == 0
  {
    if running != [] {
      NoJobHoldsMarker(u, running[..|running| - 1], w);
    }
  }

  lemma {:induction false} NoResultHoldsMarker(u: Setup, hs: seq<Handler>, w: nat)
    requires u.Valid()
    ensures Handlers(u, hs, SlotOn(w, MARKER)) == 0
  {
    if hs != [] {
      NoResultHoldsMarker(u, hs[..|hs| - 1], w);
    }
  }

  // ---- the segment count comes before recursion ----

  /** No recursion job is dispatched before the count has reached both the tree and the
    * scheduler: until then every STARK worker holds its marker, and nothing else. */
  lemma CountBeforeRecursion(u: Setup, events: seq<Event>)
    requires u.Valid()
    requires var s := Run(u, events); s.tree.status.InProgress? && s.sched.Some?
    ensures var s := Run(u, events);
            var d := s.sched.value;
            && (s.running != [] || s.tree.leaves != map[] || s.tree.internals != map[] || s.tree.evm.Some? ==>
                  d.numSegments == Some(u.segments) && s.tree.numSegments == Some(u.segments))
            && (d.numSegments.None? ==> forall w: nat :: w < |d.workers| ==> d.workers[w].active == if w < u.StarkWorkers() then [MARKER] else [])
  {
    var s := Run(u, events);
    var d := s.sched.value;
    RunKeepsInv(u, events);
    hide Run;
    LiveIsCore(u, s.tree, d, s.running, s.handlers);
    CoreToPieces(u, s.tree, d, s.running, s.handlers);
    hide SchedLive, SchedCore, WorkersOk, Handlers;
    if d.numSegments.None? {
      forall w: nat | w < |d.workers| ensures d.workers[w].active == if w < u.StarkWorkers() then [MARKER] else [] {
        BeforeCount(u, s.tree, d, s.running, s.handlers, w);
      }
    }
  }

  /** Hence the tail trigger of ExecuteE2 never finds anything to do. */
  lemma TailTriggerIsIdle(u: Setup, events: seq<Event>)
    requires u.Valid() && Run(u, events).tree.status.InProgress? && Run(u, events).tree.numSegments.None?
    ensures TriggerTailProofs(u.config, Run(u, events).tree.(numSegments := Some(u.segments))) == []
  {
    RunKeepsInv(u, events);
    var t := Run(u, events).tree.(numSegments := Some(u.segments));
    hide Run;
    TailProofsEmpty(u.config, P(u), t, NumInternalLayers(CeilDiv(u.segments, u.config.leafArity), u.config.internalArity));
  }

  // ---- the EVM step is alone ----

  lemma TopMeansBelow(u: Setup, t: State, n: Node)
    requires u.Valid() && IsTreeOk(u, t) && IsStored(u, t, Node(P(u).Top(), 0))
    requires n.level <= P(u).Top() && n.idx < P(u).Width(n.level)
    ensures IsStored(u, t, n)
  {
    hide Plan.Lo, Plan.Hi, Plan.Width, Plan.Top, IsReady, IsStored, IsTreeOk;
    TopWidth(P(u));
    if n.level < P(u).Top() {
      StoredMeansReady(u, t, Node(P(u).Top(), 0));
      ReadyMeansBelow(u, t, P(u).Top(), n);
    }
  }

  /** Once the EVM step has been asked for, every app, leaf and internal proof is stored, and no
    * other request of the proof is in hand, queued or running. */
  lemma EvmIsAlone(u: Setup, events: seq<Event>, n: Node)
    requires u.Valid() && n.level >= 1 && n != Node(P(u).Top() + 1, 0)
    requires var s := Run(u, events);
             s.tree.status.InProgress? && s.sched.Some? && Count(u, s.requested, Node(P(u).Top() + 1, 0)) > 0
    ensures var s := Run(u, events);
            && Handlers(u, s.handlers, Asking(n)) == 0 && Count(u, s.sched.value.pending, n) == 0 && Jobs(u, s.running, Asking(n)) == 0
            && (n.level <= P(u).Top() && n.idx < P(u).Width(n.level) ==> IsStored(u, s.tree, n))
  {
    var s := Run(u, events);
    RunKeepsInv(u, events);
    hide Run;
    EvmAskedMeansTop(u, s);
    if n.level <= P(u).Top() && n.idx < P(u).Width(n.level) {
      TopMeansBelow(u, s.tree, n);
    } else {
      OutsideTree(u, s.tree, n);
    }
    hide WorkersOk, Jobs, Handlers, Count, Plan.Width;
    assert Whereabouts(u, s.tree, s.sched.value, s.running, s.handlers, n) == Bit(IsReady(u, s.tree, n));
  }

  lemma EvmAskedMeansTop(u: Setup, s: Sys)
    requires u.Valid() && HistoryExact(u, s.tree, s.requested) && Count(u, s.requested, Node(P(u).Top() + 1, 0)) > 0
    ensures IsStored(u, s.tree, Node(P(u).Top(), 0))
  {
    hide Count, IsReady, IsStored;
    assert IsReady(u, s.tree, Node(P(u).Top() + 1, 0));
    EvmReadyMeansTop(u, s.tree);
  }

  lemma EvmReadyMeansTop(u: Setup, t: State)
    requires u.Valid() && IsReady(u, t, Node(P(u).Top() + 1, 0))
    ensures IsStored(u, t, Node(P(u).Top(), 0))
  {
    var p, top := P(u), P(u).Top();
    hide Stored, Plan.Top, Plan.Width;
    FirstChild(p, top + 1);
    hide Plan.Lo, Plan.Hi;
    assert ChildrenStored(u.config, p, t, Node(top + 1, 0));
    assert Stored(u.config, p, t, Node(top + 1 - 1, 0));
  }

  lemma FirstChild(p: Plan, k: nat)
    requires p.Valid() && k >= 1
    ensures p.Lo(k, 0) <= 0 < p.Hi(k, 0)
  {
    WidthPositive(p, k);
    ChildRange(p, Node(k, 0));
  }

  lemma OutsideTree(u: Setup, t: State, n: Node)
    requires u.Valid() && n.level >= 1 && n != Node(P(u).Top() + 1, 0) && !(n.level <= P(u).Top() && n.idx < P(u).Width(n.level))
    ensures !IsReady(u, t, n)
  {
    TopWidth(P(u));
  }
}
