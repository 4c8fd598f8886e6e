/** The composed manager makes progress: it is never stuck, and it always finishes. */
module Liveness {
  import opened Protocol
  import opened TreePlan
  import opened ProofDriver
  import opened DriverRefinement
  import opened Scheduler
  import opened SchedulerFacts
  import opened Manager
  import opened ManagerCounting
  import opened ManagerInvariant
  import opened ReceiveEvents
  import opened DispatchPhases
  import opened AccountPhaseProof
  import opened InvariantHolds

  // ---- deadlock freedom ----

  /** No received result is between its phases. */
  ghost predicate Quiet(hs: seq<Handler>) {
    forall h :: h in hs ==> h.accounted && h.followUps == []
  }

  lemma {:induction false} QuietWeighsNothing(u: Setup, hs: seq<Handler>, m: Measure)
    requires u.Valid() && Quiet(hs)
    ensures Handlers(u, hs, m) == 0
  {
    if hs != [] {
      QuietWeighsNothing(u, hs[..|hs| - 1], m);
      assert hs[|hs| - 1] in hs;
    }
  }

  ghost predicate AllAppsStored(u: Setup, t: State) {
    forall i: nat :: i < u.segments ==> i in t.apps
  }

  /** Below any missing node there is a lowest one, whose children are all there. */
  lemma {:induction false} LowestMissing(u: Setup, t: State, n: Node) returns (m: Node)
    requires u.Valid() && AllAppsStored(u, t) && t.numSegments.Some?
    requires InTree(u.config, P(u), n) && !IsStored(u, t, n)
    ensures IsReady(u, t, m) && !IsStored(u, t, m)
    decreases n.level
  {
    var c, p := u.config, P(u);
    WidthZero(p);
    hide Plan.Lo, Plan.Hi, Plan.Width, Plan.Top;
    assert n.level >= 1;
    if ChildrenStored(c, p, t, n) {
      m := n;
    } else {
      var i: nat :| p.Lo(n.level, n.idx) <= i < p.Hi(n.level, n.idx) && !Stored(c, p, t, Node(n.level - 1, i));
      ChildRange(p, n);
      m := LowestMissing(u, t, Node(n.level - 1, i));
    }
  }

  lemma RootInTree(u: Setup)
    requires u.Valid()
    ensures InTree(u.config, P(u), Root(u))
  {
    TopWidth(P(u));
  }

  /** Once every app proof and the count are accounted for, no marker is left. */
  lemma NothingOwed(u: Setup, t: State, d: Sched, hs: seq<Handler>, w: nat)
    requires u.Valid() && Quiet(hs) && AllAppsStored(u, t) && t.numSegments.Some?
    requires Fleet(u, d) && AppsMatch(u, t, d, hs) && CountMatches(u, t, d, hs) && w < |d.workers|
    ensures !Owes(u, d, w)
  {
    QuietWeighsNothing(u, hs, CountMessage);
    if w < u.StarkWorkers() {
      var shard := Shard(w, u.segments, u.StarkWorkers());
      hide Handlers;
      forall i | i in shard ensures i in d.workers[w].completed {
        QuietWeighsNothing(u, hs, AppFrom(i));
        assert AppAccounted(u, t, d, hs, i);
      }
      assert d.workers[w].completed == shard;
    }
  }

  /** With nothing owed and no result in flight, a busy worker is running a job. */
  lemma BusyMeansRunning(u: Setup, d: Sched, running: seq<Assigned>, hs: seq<Handler>) returns (j: nat)
    requires u.Valid() && Fleet(u, d) && SlotsMatch(u, d, running, hs) && Quiet(hs) && Busy(d)
    requires forall w: nat :: w < |d.workers| ==> !Owes(u, d, w)
    ensures j < |running|
  {
    var w: nat :| w < |d.workers| && d.workers[w].active != [];
    var x := d.workers[w].active[0];
    FirstIsCounted(d.workers[w].active);
    QuietWeighsNothing(u, hs, SlotOn(w, x));
    hide Jobs, Handlers, Owes;
    assert SlotCount(d, w, x) == ExpectedSlots(u, d, running, hs, w, x);
    j := CountedJob(u, running, SlotOn(w, x));
  }

  lemma SomethingRuns(u: Setup, t: State, d: Sched, running: seq<Assigned>, hs: seq<Handler>) returns (j: nat)
    requires u.Valid() && SchedLive(u, t, d, running, hs) && Quiet(hs) && AllAppsStored(u, t) && t.numSegments.Some?
    requires IsTreeOk(u, t) && !ReadyForFinalization(u.config, t)
    ensures j < |running|
  {
    LiveIsCore(u, t, d, running, hs);
    CoreToPieces(u, t, d, running, hs);
    ReadyIsRootStored(u, t);
    RootInTree(u);
    hide SchedCore, SchedLive, WorkersOk, Jobs, Handlers, ReadyForFinalization, InTree, IsTreeOk, IsReady, IsStored, Asked, Count;
    var m := LowestMissing(u, t, Root(u));
    assert m.level >= 1 by { ReadyNode(u, t, m); }
    QuietWeighsNothing(u, hs, Asking(m));
    assert Whereabouts(u, t, d, running, hs, m) == Bit(IsReady(u, t, m));
    if Jobs(u, running, Asking(m)) > 0 {
      j := CountedJob(u, running, Asking(m));
    } else {
      var r := CountedIsIn(u, d.pending, m);
      assert Busy(d);
      forall w: nat | w < |d.workers| ensures !Owes(u, d, w) {
        NothingOwed(u, t, d, hs, w);
      }
      j := BusyMeansRunning(u, d, running, hs);
    }
  }

  lemma ReadyNode(u: Setup, t: State, m: Node)
    requires u.Valid() && IsReady(u, t, m)
    ensures m.level >= 1
  {
  }

  lemma QuietIsUnsealed(u: Setup, s: Sys)
    requires u.Valid() && Running(u, s) && Quiet(s.handlers)
    ensures !ReadyForFinalization(u.config, s.tree) && s.sched.Some?
  {
    assert !SealerInFlight(s.handlers);
  }

  lemma RunningJobHoldsSlot(u: Setup, t: State, d: Sched, running: seq<Assigned>, hs: seq<Handler>, j: nat)
    requires u.Valid() && SchedLive(u, t, d, running, hs) && j < |running|
    ensures running[j].workerId < |d.workers| && Slot(running[j].request) in d.workers[running[j].workerId].active
  {
    var w, x := running[j].workerId, Slot(running[j].request);
    LiveIsCore(u, t, d, running, hs);
    CoreToPieces(u, t, d, running, hs);
    assert running[j] in running;
    hide SchedCore, SchedLive, WorkersOk, Jobs, Handlers, Owes;
    JobsRemove(u, running, j, SlotOn(w, x));
    assert SlotCount(d, w, x) == ExpectedSlots(u, d, running, hs, w, x);
  }

  /** Deadlock freedom: with the count known, all app results in and no result mid-flight, an
    * unfinished proof has a leaf, internal or EVM job outstanding on some worker. */
  lemma DeadlockFreedom(u: Setup, events: seq<Event>) returns (j: nat)
    requires u.Valid()
    requires var s := Run(u, events);
             s.tree.status.InProgress? && s.tree.numSegments.Some? && AllAppsStored(u, s.tree) && Quiet(s.handlers)
    ensures var s := Run(u, events);
            && s.sched.Some? && j < |s.running| && s.running[j].workerId < |s.sched.value.workers|
            && Slot(s.running[j].request) in s.sched.value.workers[s.running[j].workerId].active
  {
    var s := Run(u, events);
    RunKeepsInv(u, events);
    hide Run, SchedLive;
    QuietIsUnsealed(u, s);
    j := SomethingRuns(u, s.tree, s.sched.value, s.running, s.handlers);
    RunningJobHoldsSlot(u, s.tree, s.sched.value, s.running, s.handlers, j);
  }

  // ---- never stuck ----

  /** The events that move a proof forward, with the environment behaving: the cost is within
    * the limit and the artifact can be saved. */
  predicate Forward(u: Setup, e: Event) {
    match e
    case DeliverCount(_, cost) => cost <= u.config.costLimit
    case DeliverApp(_, _, _) => true
    case DeliverJob(_, _) => true
    case Account(_, saved) => saved
    case Enqueue(_) => true
    case _ => false
  }

  /** An unfinished proof always has a forward event to take. */
  lemma NeverStuck(u: Setup, events: seq<Event>) returns (e: Event)
    requires u.Valid() && Run(u, events).tree.status.InProgress?
    ensures Forward(u, e) && Enabled(u, Run(u, events), e)
  {
    var s := Run(u, events);
    RunKeepsInv(u, events);
    hide Run;
    e := ForwardEvent(u, s);
  }

  lemma ForwardEvent(u: Setup, s: Sys) returns (e: Event)
    requires u.Valid() && s.tree.status.InProgress? && Running(u, s)
    ensures Forward(u, e) && Enabled(u, s, e)
  {
    hide Running;
    if !s.countSent {
      e := DeliverCount(0, 0);
    } else if i: nat :| i < u.segments && i !in s.appsSent {
      e := DeliverApp(i, None, None);
    } else if h: nat :| h < |s.handlers| && !s.handlers[h].accounted {
      e := Account(h, true);
    } else if h: nat :| h < |s.handlers| && s.handlers[h].followUps != [] {
      e := Enqueue(h);
    } else {
      var j := QuietButRunning(u, s);
      e := DeliverJob(j, None);
    }
  }

  lemma QuietButRunning(u: Setup, s: Sys) returns (j: nat)
    requires u.Valid() && s.tree.status.InProgress? && Running(u, s) && s.countSent
    requires (forall i: nat :: i < u.segments ==> i in s.appsSent) && Quiet(s.handlers)
    ensures j < |s.running|
  {
    assert AllAppsStored(u, s.tree);
    hide SchedLive, IsTreeOk, ReadyForFinalization, Quiet, HandlersOk, HistoryExact;
    QuietIsUnsealed(u, s);
    j := SomethingRuns(u, s.tree, s.sched.value, s.running, s.handlers);
  }
}
