/** Phase 1 keeps the invariant: receiving a result stores one node and asks for at most one. */
module ReceivePhase {
  import opened Protocol
  import opened TreePlan
  import opened PriorityQueue
  import opened ProofDriver
  import opened DriverRefinement
  import opened Scheduler
  import opened SchedulerFacts
  import opened Manager
  import opened ManagerCounting
  import opened ManagerInvariant

  /** A tree step: `t'` stores just `n` on top of `t`, and `f` asks for the parent if due. */
  ghost predicate TreeStep(u: Setup, t: State, t': State, f: seq<Request>, n: Node)
    requires u.Valid()
  {
    && IsTreeOk(u, t') && StoresJust(u.config, P(u), t, t', n) && InTree(u.config, P(u), n) && !IsStored(u, t, n)
    && AsksForParent(u.config, P(u), t', f, n) && t'.status == t.status
  }

  lemma StepAsks(u: Setup, t: State, t': State, f: seq<Request>, n: Node, m: Node)
    requires u.Valid() && TreeStep(u, t, t', f, n)
    ensures AllGood(u, f)
    ensures Bit(IsReady(u, t', m)) == Bit(IsReady(u, t, m)) + Count(u, f, m)
    ensures Bit(IsStored(u, t', m)) == Bit(IsStored(u, t, m)) + Bit(m == n)
  {
    var q := P(u).Parent(n);
    ReadyAfterStore(u.config, P(u), t, t', n, m);
    hide Ready, Stored, AsksFor, Plan.Parent, TreeOk, Asked;
    if Ready(u.config, P(u), t', q) {
      AskedIs(u, f[0], q);
      assert f == [f[0]];
      CountOne(u, f[0], m);
    }
  }

  lemma StepConserves(u: Setup, t: State, t': State, d: Sched, running: seq<Assigned>, running': seq<Assigned>,
        hs: seq<Handler>, h: Handler, n: Node)
    requires u.Valid() && TreeStep(u, t, t', h.followUps, n) && Conserved(u, t, d, running, hs)
    requires forall m: Node :: m.level >= 1 ==> Jobs(u, running, Asking(m)) == Jobs(u, running', Asking(m)) + Bit(m == n)
    ensures Conserved(u, t', d, running', hs + [h])
  {
    hide IsReady, IsStored, Jobs, Handlers, Count, TreeStep;
    forall m: Node | m.level >= 1 ensures Whereabouts(u, t', d, running', hs + [h], m) == Bit(IsReady(u, t', m)) {
      StepAsks(u, t, t', h.followUps, n, m);
      HandlersAppend(u, hs, h, Asking(m));
      assert HandlerWeight(u, h, Asking(m)) == Count(u, h.followUps, m);
      assert Whereabouts(u, t, d, running, hs, m) == Bit(IsReady(u, t, m));
    }
  }

  lemma StepSlots(u: Setup, d: Sched, running: seq<Assigned>, running': seq<Assigned>, hs: seq<Handler>, h: Handler)
    requires u.Valid() && SlotsMatch(u, d, running, hs)
    requires forall w: nat, x: ActiveProof :: Jobs(u, running, SlotOn(w, x)) == Jobs(u, running', SlotOn(w, x)) + HandlerWeight(u, h, SlotOn(w, x))
    ensures SlotsMatch(u, d, running', hs + [h])
  {
    hide SlotCount, Jobs, Handlers, HandlerWeight, Owes;
    forall w: nat, x: ActiveProof | w < |d.workers| ensures SlotCount(d, w, x) == ExpectedSlots(u, d, running', hs + [h], w, x) {
      HandlersAppend(u, hs, h, SlotOn(w, x));
      assert SlotCount(d, w, x) == ExpectedSlots(u, d, running, hs, w, x);
    }
  }

  lemma StepApps(u: Setup, t: State, t': State, d: Sched, hs: seq<Handler>, h: Handler)
    requires u.Valid() && AppsMatch(u, t, d, hs)
    requires forall i: nat :: i < u.segments ==> Bit(i in t'.apps) == Bit(i in t.apps) + HandlerWeight(u, h, AppFrom(i))
    ensures AppsMatch(u, t', d, hs + [h])
  {
    hide Handlers, HandlerWeight;
    forall i: nat | i < u.segments ensures AppAccounted(u, t', d, hs + [h], i) {
      HandlersAppend(u, hs, h, AppFrom(i));
      assert AppAccounted(u, t, d, hs, i);
    }
  }

  lemma StepHistory(u: Setup, t: State, t': State, requested: seq<Request>, f: seq<Request>, n: Node)
    requires u.Valid() && TreeStep(u, t, t', f, n) && HistoryExact(u, t, requested)
    ensures HistoryExact(u, t', requested + f)
  {
    StepAsks(u, t, t', f, n, n);
    hide IsReady, IsStored, Count, TreeStep, Good;
    forall m: Node ensures Count(u, requested + f, m) == Bit(IsReady(u, t', m)) {
      StepAsks(u, t, t', f, n, m);
      CountConcat(u, requested, f, m);
    }
  }

  lemma HandlersStillOk(u: Setup, t: State, t': State, hs: seq<Handler>, h: Handler)
    requires u.Valid() && HandlersOk(u, t, hs) && !ReadyForFinalization(u.config, t) && HandlerOk(u, t', h)
    ensures HandlersOk(u, t', hs + [h])
  {
    hide AllGood;
    forall g | g in hs ensures HandlerOk(u, t', g) {
      assert HandlerOk(u, t, g);
    }
  }

  /** What a processed result leaves behind, when it is a tree step. */
  ghost predicate Processes(u: Setup, s: Sys, s': Sys, running': seq<Assigned>, h: Handler, n: Node)
    requires u.Valid()
  {
    && s'.sched == s.sched && s'.running == running' && s'.handlers == s.handlers + [h] && s'.requested == s.requested + h.followUps
    && TreeStep(u, s.tree, s'.tree, h.followUps, n)
    && !h.accounted && (h.sealed <==> ReadyForFinalization(u.config, s'.tree))
    && HandlerOk(u, s'.tree, h)
  }

  ghost predicate Balanced(u: Setup, running: seq<Assigned>, running': seq<Assigned>, h: Handler, n: Node)
    requires u.Valid()
  {
    && (forall m: Node :: m.level >= 1 ==> Jobs(u, running, Asking(m)) == Jobs(u, running', Asking(m)) + Bit(m == n))
    && (forall w: nat, x: ActiveProof :: Jobs(u, running, SlotOn(w, x)) == Jobs(u, running', SlotOn(w, x)) + HandlerWeight(u, h, SlotOn(w, x)))
  }

  lemma ProcessKeepsSched(u: Setup, s: Sys, s': Sys, running': seq<Assigned>, h: Handler, n: Node)
    requires u.Valid() && s.tree.status.InProgress? && Running(u, s) && s.sched.Some?
    requires Processes(u, s, s', running', h, n) && Balanced(u, s.running, running', h, n)
    requires forall i: nat :: i < u.segments ==> Bit(i in s'.tree.apps) == Bit(i in s.tree.apps) + HandlerWeight(u, h, AppFrom(i))
    requires JobsOk(u, running') && HandlerWeight(u, h, CountMessage) == 0
    requires Gate(s'.tree, s.sched.value, running', s'.handlers)
    ensures SchedLive(u, s'.tree, s.sched.value, running', s'.handlers)
  {
    var d := s.sched.value;
    hide Conserved, SlotsMatch, AppsMatch, Jobs, Handlers, WorkersOk, WillWake, Gate, AllGood, JobsOk;
    StepConserves(u, s.tree, s'.tree, d, s.running, running', s.handlers, h, n);
    StepSlots(u, d, s.running, running', s.handlers, h);
    StepApps(u, s.tree, s'.tree, d, s.handlers, h);
    HandlersAppend(u, s.handlers, h, CountMessage);
  }

  lemma ProcessKeeps(u: Setup, s: Sys, s': Sys, running': seq<Assigned>, h: Handler, n: Node)
    requires u.Valid() && s.tree.status.InProgress? && Running(u, s)
    requires Processes(u, s, s', running', h, n) && Delivered(s')
    requires !ReadyForFinalization(u.config, s.tree)
    requires s.sched.Some? ==> SchedLive(u, s'.tree, s.sched.value, running', s'.handlers)
    ensures s'.tree.status.InProgress? && Running(u, s')
  {
    hide SchedLive, HandlerOk, TreeStep, IsTreeOk, Delivered, ReadyForFinalization;
    assert IsTreeOk(u, s'.tree) by { StepTreeOk(u, s, s', h, n); }
    StepHistory(u, s.tree, s'.tree, s.requested, h.followUps, n);
    HandlersStillOk(u, s.tree, s'.tree, s.handlers, h);
    if ReadyForFinalization(u.config, s'.tree) {
      assert s'.handlers[|s.handlers|] == h;
    }
    StepStatus(u, s, s', h, n);
  }

  lemma StepTreeOk(u: Setup, s: Sys, s': Sys, h: Handler, n: Node)
    requires u.Valid() && TreeStep(u, s.tree, s'.tree, h.followUps, n)
    ensures IsTreeOk(u, s'.tree)
  {
  }

  lemma StepStatus(u: Setup, s: Sys, s': Sys, h: Handler, n: Node)
    requires u.Valid() && TreeStep(u, s.tree, s'.tree, h.followUps, n)
    ensures s'.tree.status == s.tree.status
  {
  }
}
