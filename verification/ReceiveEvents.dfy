/** The delivery events, one by one. */
module ReceiveEvents {
  import opened Protocol
  import opened TreePlan
  import opened PriorityQueue
  import opened ProofDriver
  import opened DriverRefinement
  import opened Scheduler
  import opened SchedulerFacts
  import opened Manager
  import opened ManagerCounting
  import opened ManagerInvariant
  import opened ReceivePhase

  lemma {:induction false} StarkCountBound(ready: seq<(nat, Role)>)
    ensures StarkCount(ready) <= |ready|
  {
    if ready != [] {
      StarkCountBound(ready[..|ready| - 1]);
    }
  }

  // ---- app results ----

  lemma AppTreeStep(u: Setup, s: Sys, app: AppState)
    requires u.Valid() && s.tree.status.InProgress? && IsTreeOk(u, s.tree) && Delivered(s)
    requires app.segmentIdx < u.segments && app.segmentIdx !in s.appsSent && app.proof == Some(AppProof(app.segmentIdx))
    ensures !ReadyForFinalization(u.config, s.tree)
    ensures var (t', f) := HandleApp(u.config, s.tree, app);
            && TreeStep(u, s.tree, t', f, Node(0, app.segmentIdx)) && t'.apps == s.tree.apps[app.segmentIdx := AppProof(app.segmentIdx)]
            && t'.leaves == s.tree.leaves && t'.internals == s.tree.internals && t'.evm == s.tree.evm && t'.numSegments == s.tree.numSegments
            && HandleEnvelope(u.config, s.tree, AppResult(app)) == (t', Processed(f, ReadyForFinalization(u.config, t')))
  {
    var n := Node(0, app.segmentIdx);
    WidthZero(P(u));
    assert InTree(u.config, P(u), n) && !IsStored(u, s.tree, n);
    MissingMeansUnsealed(u, s.tree, n);
    AppResultRefines(u.config, P(u), s.tree, app);
  }

  lemma DeliverAppEffect(u: Setup, s: Sys, i: nat, path: Option<Bytes>, depth0: Option<Bytes>)
    requires u.Valid() && SchedOk(s) && s.tree.status.InProgress? && IsTreeOk(u, s.tree) && Delivered(s)
    requires i < u.segments && i !in s.appsSent
    ensures var app := AppState(i, Some(AppProof(i)), path, depth0);
            var (t', f) := HandleApp(u.config, s.tree, app);
            Do(u, s, DeliverApp(i, path, depth0)) ==
            s.(tree := t', handlers := s.handlers + [Handler(i % u.StarkWorkers(), AppResult(app), ReadyForFinalization(u.config, t'), false, f)],
               requested := s.requested + f, appsSent := s.appsSent + {i})
  {
    AppTreeStep(u, s, AppState(i, Some(AppProof(i)), path, depth0));
    hide HandleApp, HandleEnvelope, TreeStep, ReadyForFinalization;
  }

  lemma DeliverAppKeeps(u: Setup, s: Sys, i: nat, path: Option<Bytes>, depth0: Option<Bytes>)
    requires u.Valid() && SchedOk(s) && s.tree.status.InProgress? && Running(u, s) && Enabled(u, s, DeliverApp(i, path, depth0))
    ensures var s' := Do(u, s, DeliverApp(i, path, depth0)); s'.tree.status.InProgress? && Running(u, s')
  {
    var app := AppState(i, Some(AppProof(i)), path, depth0);
    DeliverAppEffect(u, s, i, path, depth0);
    AppTreeStep(u, s, app);
    var (t', f) := HandleApp(u.config, s.tree, app);
    var h := Handler(i % u.StarkWorkers(), AppResult(app), ReadyForFinalization(u.config, t'), false, f);
    var s' := Do(u, s, DeliverApp(i, path, depth0));
    hide HandleApp, HandleEnvelope, TreeStep, ReadyForFinalization, Running, Do;
    ReceivedAppKeeps(u, s, s', h, i);
  }

  lemma ReceivedAppKeeps(u: Setup, s: Sys, s': Sys, h: Handler, i: nat)
    requires u.Valid() && s.tree.status.InProgress? && Running(u, s) && !ReadyForFinalization(u.config, s.tree)
    requires i < u.segments && TreeStep(u, s.tree, s'.tree, h.followUps, Node(0, i))
    requires s'.tree.apps == s.tree.apps[i := AppProof(i)] && i !in s.tree.apps && s'.tree.numSegments == s.tree.numSegments
    requires s'.tree.leaves == s.tree.leaves && s'.tree.internals == s.tree.internals && s'.tree.evm == s.tree.evm
    requires s' == s.(tree := s'.tree, handlers := s.handlers + [h], requested := s.requested + h.followUps, appsSent := s.appsSent + {i})
    requires !h.accounted && h.result.AppResult? && h.result.app.segmentIdx == i && h.worker == i % u.StarkWorkers()
    requires h.sealed == ReadyForFinalization(u.config, s'.tree)
    ensures s'.tree.status.InProgress? && Running(u, s')
  {
    var n := Node(0, i);
    StarkCountBound(u.Ready());
    StepAsks(u, s.tree, s'.tree, h.followUps, n, n);
    hide TreeStep, SchedLive, IsTreeOk, HandlersOk, HistoryExact, AllGood, ReadyForFinalization, SealerInFlight;
    assert HandlerOk(u, s'.tree, h);
    assert Delivered(s') by { assert s'.tree.apps.Keys == s.tree.apps.Keys + {i}; }
    if s.sched.Some? {
      AppGate(u, s, s'.tree, h);
      AppBalanced(u, s.running, h, n);
      SchedJobs(u, s);
      ProcessKeepsSched(u, s, s', s.running, h, n);
    }
    ProcessKeeps(u, s, s', s.running, h, n);
  }

  lemma SchedJobs(u: Setup, s: Sys)
    requires u.Valid() && s.sched.Some? && SchedLive(u, s.tree, s.sched.value, s.running, s.handlers)
    ensures JobsOk(u, s.running)
  {
    hide Conserved, SlotsMatch, AppsMatch, WorkersOk;
  }

  lemma AppGate(u: Setup, s: Sys, t': State, h: Handler)
    requires u.Valid() && s.sched.Some? && SchedLive(u, s.tree, s.sched.value, s.running, s.handlers)
    requires t'.leaves == s.tree.leaves && t'.internals == s.tree.internals && t'.evm == s.tree.evm && h.result.AppResult?
    ensures Gate(t', s.sched.value, s.running, s.handlers + [h])
  {
    hide Conserved, SlotsMatch, AppsMatch, WorkersOk;
  }

  lemma AppBalanced(u: Setup, running: seq<Assigned>, h: Handler, n: Node)
    requires u.Valid() && h.result.AppResult? && n.level == 0
    ensures Balanced(u, running, running, h, n)
  {
  }

  // ---- recursion jobs ----

  /** A running job is due, unstored, and comes after the count is known everywhere. */
  lemma RunningJobIsDue(u: Setup, s: Sys, j: nat)
    requires u.Valid() && s.tree.status.InProgress? && Running(u, s) && s.sched.Some? && j < |s.running|
    ensures var n := Asked(u, s.running[j].request);
            && AsksFor(u.config, P(u), s.running[j].request, n) && s.running[j].workerId < |u.roles|
            && IsReady(u, s.tree, n) && !IsStored(u, s.tree, n) && InTree(u.config, P(u), n) && n.level >= 1
    ensures s.tree.numSegments.Some? && s.sched.value.numSegments.Some?
    ensures !ReadyForFinalization(u.config, s.tree)
  {
    var n, d := Asked(u, s.running[j].request), s.sched.value;
    SchedJobs(u, s);
    assert s.running[j] in s.running;
    assert Good(u, s.running[j].request);
    hide Asked, SlotsMatch, AppsMatch, WorkersOk, TreeOk;
    JobsRemove(u, s.running, j, Asking(n));
    assert Whereabouts(u, s.tree, d, s.running, s.handlers, n) == Bit(IsReady(u, s.tree, n));
    MissingMeansUnsealed(u, s.tree, n);
  }

  ghost predicate Due(u: Setup, t: State, r: Request, n: Node)
    requires u.Valid()
  {
    && t.status.InProgress? && IsTreeOk(u, t) && t.numSegments.Some? && !ReadyForFinalization(u.config, t)
    && AsksFor(u.config, P(u), r, n) && IsReady(u, t, n) && !IsStored(u, t, n)
  }

  ghost predicate Steps(u: Setup, t: State, r: ProofResult, n: Node)
    requires u.Valid()
  {
    var (t', outcome) := HandleEnvelope(u.config, t, r);
    && outcome.Processed? && TreeStep(u, t, t', outcome.followUps, n)
    && (outcome.sealed <==> ReadyForFinalization(u.config, t'))
    && t'.apps == t.apps && t'.numSegments == t.numSegments
  }

  lemma EnvelopeOfLeaf(c: Config, t: State, x: LeafState)
    requires c.Valid() && !Sealed(c, t)
    ensures var (t', f) := HandleLeaf(c, t, x);
            && HandleEnvelope(c, t, LeafResult(x)) == (t', Processed(f, Sealed(c, t')))
            && t'.apps == t.apps && t'.numSegments == t.numSegments
  {
    hide Sealed, LeafFollowUps;
  }

  lemma EnvelopeOfInternal(c: Config, t: State, x: InternalState)
    requires c.Valid() && !Sealed(c, t) && HandleInternal(c, t, x).1.Requests?
    ensures var (t', reply) := HandleInternal(c, t, x);
            && HandleEnvelope(c, t, InternalResult(x)) == (t', Processed(reply.requests, Sealed(c, t')))
            && t'.apps == t.apps && t'.numSegments == t.numSegments
  {
    hide Sealed, InternalFollowUps;
  }

  lemma LeafJobStep(u: Setup, t: State, r: Request, n: Node, merkle: Option<Bytes>)
    requires u.Valid() && Due(u, t, r, n) && r.LeafRequest?
    ensures Steps(u, t, ResultOf(u, r, merkle), n)
  {
    var x := LeafState(r.segmentStart, r.segmentEnd, Some(P(u).Proof(n)));
    assert ResultOf(u, r, merkle) == LeafResult(x);
    assert InTree(u.config, P(u), n);
    LeafResultRefines(u.config, P(u), t, x, n);
    EnvelopeOfLeaf(u.config, t, x);
    hide InTree, Ready, Stored, TreeOk, StoresJust, AsksForParent, ReadyForFinalization, HandleLeaf, HandleEnvelope, AsksFor, Plan.Proof, ResultOf;
  }

  lemma InternalJobStep(u: Setup, t: State, r: Request, n: Node, merkle: Option<Bytes>)
    requires u.Valid() && Due(u, t, r, n) && r.InternalRequest?
    ensures Steps(u, t, ResultOf(u, r, merkle), n)
  {
    var x := InternalState(r.layerIdx, r.segmentStart, r.segmentEnd, Some(P(u).Proof(n)), r.isFinalProof && u.config.proofType.Evm?, merkle);
    InternalJobResult(u, t, r, n, merkle);
    assert InTree(u.config, P(u), n);
    hide InTree, Ready, Stored, TreeOk, StoresJust, AsksForParent, ReadyForFinalization, HandleInternal, HandleEnvelope;
    hide AsksFor, Plan.Proof, ResultOf, ResultFor;
    InternalResultRefines(u.config, P(u), t, x, n);
    EnvelopeOfInternal(u.config, t, x);
  }

  lemma InternalJobResult(u: Setup, t: State, r: Request, n: Node, merkle: Option<Bytes>)
    requires u.Valid() && Due(u, t, r, n) && r.InternalRequest?
    ensures var x := InternalState(r.layerIdx, r.segmentStart, r.segmentEnd, Some(P(u).Proof(n)), r.isFinalProof && u.config.proofType.Evm?, merkle);
            ResultOf(u, r, merkle) == InternalResult(x) && ResultFor(u.config, P(u), x, n)
  {
    hide Plan.SegmentStart, Plan.SegmentEnd, Plan.Children, Plan.Width, TailOk, Ready, Stored, TreeOk, ReadyForFinalization;
  }

  lemma EvmJobStep(u: Setup, t: State, r: Request, n: Node, merkle: Option<Bytes>)
    requires u.Valid() && Due(u, t, r, n) && r.EvmRequest?
    ensures Steps(u, t, ResultOf(u, r, merkle), n)
  {
    assert P(u).Proof(n) == EvmProof(r.internalProof);
    EvmResultRefines(u.config, P(u), t, n);
    hide Plan.Lo, Plan.Hi, Plan.Width, Ready, Stored, TreeOk, StoresJust, AsksForParent, Plan.Proof;
  }

  lemma JobTreeStep(u: Setup, t: State, r: Request, n: Node, merkle: Option<Bytes>)
    requires u.Valid() && Due(u, t, r, n)
    ensures Steps(u, t, ResultOf(u, r, merkle), n)
  {
    hide Due, Steps;
    match r
    case LeafRequest(_, _, _) => LeafJobStep(u, t, r, n, merkle);
    case InternalRequest(_, _, _, _, _, _, _) => InternalJobStep(u, t, r, n, merkle);
    case EvmRequest(_, _, _) => EvmJobStep(u, t, r, n, merkle);
  }

  lemma JobSlot(u: Setup, r: Request, merkle: Option<Bytes>)
    ensures SlotOfResult(ResultOf(u, r, merkle)) == Some(Slot(r))
  {
  }

  lemma JobBalanced(u: Setup, running: seq<Assigned>, j: nat, h: Handler, merkle: Option<Bytes>)
    requires u.Valid() && j < |running| && h.worker == running[j].workerId
    requires h.result == ResultOf(u, running[j].request, merkle) && !h.accounted
    ensures Balanced(u, running, running[..j] + running[j + 1..], h, Asked(u, running[j].request))
    ensures HandlerWeight(u, h, CountMessage) == 0
    ensures forall i: nat :: HandlerWeight(u, h, AppFrom(i)) == 0
  {
    var rest := running[..j] + running[j + 1..];
    JobSlot(u, running[j].request, merkle);
    hide Jobs, Asked, ResultOf;
    forall m: Node | m.level >= 1
      ensures Jobs(u, running, Asking(m)) == Jobs(u, rest, Asking(m)) + Bit(m == Asked(u, running[j].request))
    {
      JobsRemove(u, running, j, Asking(m));
    }
    forall w: nat, x: ActiveProof
      ensures Jobs(u, running, SlotOn(w, x)) == Jobs(u, rest, SlotOn(w, x)) + HandlerWeight(u, h, SlotOn(w, x))
    {
      JobsRemove(u, running, j, SlotOn(w, x));
    }
  }

  lemma DeliverJobEffect(u: Setup, s: Sys, j: nat, merkle: Option<Bytes>)
    requires u.Valid() && SchedOk(s) && j < |s.running|
    requires HandleEnvelope(u.config, s.tree, ResultOf(u, s.running[j].request, merkle)).1.Processed?
    ensures var job := s.running[j];
            var r := ResultOf(u, job.request, merkle);
            var (t', outcome) := HandleEnvelope(u.config, s.tree, r);
            Do(u, s, DeliverJob(j, merkle)) ==
            s.(tree := t', running := s.running[..j] + s.running[j + 1..],
               handlers := s.handlers + [Handler(job.workerId, r, outcome.sealed, false, outcome.followUps)],
               requested := s.requested + outcome.followUps)
  {
    hide HandleEnvelope, ResultOf;
  }

  lemma DeliverJobKeeps(u: Setup, s: Sys, j: nat, merkle: Option<Bytes>)
    requires u.Valid() && SchedOk(s) && s.tree.status.InProgress? && Running(u, s) && s.sched.Some? && j < |s.running|
    ensures var s' := Do(u, s, DeliverJob(j, merkle)); s'.tree.status.InProgress? && Running(u, s')
  {
    var job := s.running[j];
    var n, r := Asked(u, job.request), ResultOf(u, job.request, merkle);
    RunningJobIsDue(u, s, j);
    RunningTreeOk(u, s);
    assert Due(u, s.tree, job.request, n);
    hide HandleEnvelope, ResultOf, Asked, Do, Running, Due, IsReady, IsStored, TreeStep, ReadyForFinalization, IsTreeOk;
    JobTreeStep(u, s.tree, job.request, n, merkle);
    DeliverJobEffect(u, s, j, merkle);
    var outcome := HandleEnvelope(u.config, s.tree, r).1;
    ReceivedJobKeeps(u, s, Do(u, s, DeliverJob(j, merkle)), Handler(job.workerId, r, outcome.sealed, false, outcome.followUps), j, merkle);
  }

  lemma RunningTreeOk(u: Setup, s: Sys)
    requires u.Valid() && Running(u, s)
    ensures IsTreeOk(u, s.tree)
  {
  }

  lemma ReceivedJobKeeps(u: Setup, s: Sys, s': Sys, h: Handler, j: nat, merkle: Option<Bytes>)
    requires u.Valid() && s.tree.status.InProgress? && Running(u, s) && s.sched.Some? && j < |s.running|
    requires TreeStep(u, s.tree, s'.tree, h.followUps, Asked(u, s.running[j].request))
    requires s'.tree.apps == s.tree.apps && s'.tree.numSegments == s.tree.numSegments
    requires s' == s.(tree := s'.tree, running := s.running[..j] + s.running[j + 1..],
                      handlers := s.handlers + [h], requested := s.requested + h.followUps)
    requires !h.accounted && h.worker == s.running[j].workerId && h.result == ResultOf(u, s.running[j].request, merkle)
    requires h.sealed == ReadyForFinalization(u.config, s'.tree)
    ensures s'.tree.status.InProgress? && Running(u, s')
  {
    var n := Asked(u, s.running[j].request);
    RunningJobIsDue(u, s, j);
    StepAsks(u, s.tree, s'.tree, h.followUps, n, n);
    JobBalanced(u, s.running, j, h, merkle);
    ReceivedJobOk(u, s, s'.tree, h, j, merkle);
    hide TreeStep, SchedLive, IsTreeOk, HandlersOk, HistoryExact, AllGood, ReadyForFinalization, SealerInFlight;
    hide Asked, ResultOf, Good, Balanced, JobsOk, HandlerOk;
    ProcessKeepsSched(u, s, s', s'.running, h, n);
    ProcessKeeps(u, s, s', s'.running, h, n);
  }

  lemma ReceivedJobOk(u: Setup, s: Sys, t': State, h: Handler, j: nat, merkle: Option<Bytes>)
    requires u.Valid() && s.sched.Some? && SchedLive(u, s.tree, s.sched.value, s.running, s.handlers) && j < |s.running|
    requires h.worker == s.running[j].workerId && h.result == ResultOf(u, s.running[j].request, merkle)
    requires h.sealed == ReadyForFinalization(u.config, t') && AllGood(u, h.followUps)
    ensures HandlerOk(u, t', h) && JobsOk(u, s.running[..j] + s.running[j + 1..])
  {
    SchedJobs(u, s);
    ResultKind(u, s.running[j].request, merkle);
    hide SchedLive, AllGood, ReadyForFinalization, ResultOf, Good;
    assert s.running[j] in s.running;
  }

  lemma ResultKind(u: Setup, r: Request, merkle: Option<Bytes>)
    ensures var x := ResultOf(u, r, merkle); x.LeafResult? || x.InternalResult? || x.EvmResult?
  {
  }

  // ---- the segment count ----

  lemma CountTreeStep(u: Setup, s: Sys, cost: nat)
    requires u.Valid() && s.tree.status.InProgress? && IsTreeOk(u, s.tree) && s.tree.numSegments.None?
    ensures !ReadyForFinalization(u.config, s.tree)
    ensures var t' := s.tree.(numSegments := Some(u.segments)); IsTreeOk(u, t') && !ReadyForFinalization(u.config, t')
    ensures cost <= u.config.costLimit ==>
              HandleEnvelope(u.config, s.tree, ExecuteE2Result(cost, u.segments)) ==
              (s.tree.(numSegments := Some(u.segments)), Processed(HandleExecuteE2(u.config, s.tree, u.segments).1, false))
    ensures cost > u.config.costLimit ==> HandleEnvelope(u.config, s.tree, ExecuteE2Result(cost, u.segments)).0.status.Failing?
    ensures HandleEnvelope(u.config, s.tree, ExecuteE2Result(cost, u.segments)).1.Processed?
    ensures cost > u.config.costLimit ==> HandleEnvelope(u.config, s.tree, ExecuteE2Result(cost, u.segments)).1.followUps == []
  {
    ExecuteE2Refines(u.config, P(u), s.tree);
    var t' := s.tree.(numSegments := Some(u.segments));
    ReadyIsRootStored(u, t');
    hide HandleExecuteE2;
  }

  lemma CountAsks(u: Setup, s: Sys, m: Node)
    requires u.Valid() && IsTreeOk(u, s.tree) && s.tree.numSegments.None?
    ensures var (t', f) := HandleExecuteE2(u.config, s.tree, u.segments);
            && AllGood(u, f) && Bit(IsReady(u, t', m)) == Bit(IsReady(u, s.tree, m)) + Count(u, f, m)
            && (IsStored(u, t', m) <==> IsStored(u, s.tree, m))
  {
    var b := TailBatch(P(u));
    ExecuteE2Refines(u.config, P(u), s.tree);
    var (t', f) := HandleExecuteE2(u.config, s.tree, u.segments);
    assert IsStored(u, t', m) <==> IsStored(u, s.tree, m);
    hide HandleExecuteE2, Ready, Stored, AsksFor, TreeOk, Asked;
    if IsReady(u, t', b) {
      AskedIs(u, f[0], b);
      assert f == [f[0]];
      CountOne(u, f[0], m);
    }
  }

  lemma CountConserves(u: Setup, s: Sys, h: Handler)
    requires u.Valid() && IsTreeOk(u, s.tree) && s.tree.numSegments.None? && s.sched.Some?
    requires Conserved(u, s.tree, s.sched.value, s.running, s.handlers)
    requires h.followUps == HandleExecuteE2(u.config, s.tree, u.segments).1
    ensures Conserved(u, HandleExecuteE2(u.config, s.tree, u.segments).0, s.sched.value, s.running, s.handlers + [h])
  {
    var t' := HandleExecuteE2(u.config, s.tree, u.segments).0;
    hide IsReady, IsStored, Jobs, Handlers, Count, HandleExecuteE2;
    forall m: Node | m.level >= 1 ensures Whereabouts(u, t', s.sched.value, s.running, s.handlers + [h], m) == Bit(IsReady(u, t', m)) {
      CountAsks(u, s, m);
      HandlersAppend(u, s.handlers, h, Asking(m));
      assert HandlerWeight(u, h, Asking(m)) == Count(u, h.followUps, m);
      assert Whereabouts(u, s.tree, s.sched.value, s.running, s.handlers, m) == Bit(IsReady(u, s.tree, m));
    }
  }

  lemma CountHistory(u: Setup, s: Sys)
    requires u.Valid() && IsTreeOk(u, s.tree) && s.tree.numSegments.None? && HistoryExact(u, s.tree, s.requested)
    ensures var (t', f) := HandleExecuteE2(u.config, s.tree, u.segments); HistoryExact(u, t', s.requested + f)
  {
    var (t', f) := HandleExecuteE2(u.config, s.tree, u.segments);
    CountAsks(u, s, Root(u));
    hide IsReady, IsStored, Count, Good, HandleExecuteE2;
    forall m: Node ensures Count(u, s.requested + f, m) == Bit(IsReady(u, t', m)) {
      CountAsks(u, s, m);
      CountConcat(u, s.requested, f, m);
    }
  }

  lemma CountKeepsSched(u: Setup, s: Sys, h: Handler)
    requires u.Valid() && IsTreeOk(u, s.tree) && s.tree.numSegments.None? && s.sched.Some?
    requires SchedLive(u, s.tree, s.sched.value, s.running, s.handlers)
    requires h.followUps == HandleExecuteE2(u.config, s.tree, u.segments).1 && h.result.ExecuteE2Result? && !h.accounted
    ensures SchedLive(u, s.tree.(numSegments := Some(u.segments)), s.sched.value, s.running, s.handlers + [h])
  {
    var d, t' := s.sched.value, s.tree.(numSegments := Some(u.segments));
    assert HandleExecuteE2(u.config, s.tree, u.segments).0 == t' by { hide FlushPendingLeafBatches, TriggerTailProofs; }
    hide Conserved, SlotsMatch, Jobs, Handlers, WorkersOk, WillWake, AllGood, JobsOk, HandleExecuteE2, AppsMatch;
    CountConserves(u, s, h);
    assert forall w: nat, x: ActiveProof :: HandlerWeight(u, h, SlotOn(w, x)) == 0;
    StepSlots(u, d, s.running, s.running, s.handlers, h);
    assert forall i: nat :: HandlerWeight(u, h, AppFrom(i)) == 0;
    StepApps(u, s.tree, t', d, s.handlers, h);
    HandlersAppend(u, s.handlers, h, CountMessage);
    assert HandlerWeight(u, h, CountMessage) == 1;
  }

  lemma DeliverCountKeeps(u: Setup, s: Sys, w: nat, cost: nat)
    requires u.Valid() && SchedOk(s) && s.tree.status.InProgress? && Running(u, s) && Enabled(u, s, DeliverCount(w, cost))
    requires cost <= u.config.costLimit
    ensures var s' := Do(u, s, DeliverCount(w, cost)); s'.tree.status.InProgress? && Running(u, s')
  {
    var t' := s.tree.(numSegments := Some(u.segments));
    var f := HandleExecuteE2(u.config, s.tree, u.segments).1;
    var h := Handler(w, ExecuteE2Result(cost, u.segments), false, false, f);
    CountTreeStep(u, s, cost);
    CountHistory(u, s);
    CountAsks(u, s, Root(u));
    StarkCountBound(u.Ready());
    var s' := Do(u, s, DeliverCount(w, cost));
    assert HandleExecuteE2(u.config, s.tree, u.segments).0 == t' by { hide FlushPendingLeafBatches, TriggerTailProofs; }
    hide HandleEnvelope, HandleExecuteE2, SchedLive, SchedCore, IsTreeOk, HistoryExact, AllGood, ReadyForFinalization, SealerInFlight;
    assert s'.tree == t' && s'.handlers == s.handlers + [h] && s'.requested == s.requested + f && s'.sched == s.sched && s'.running == s.running;
    assert HandlerOk(u, t', h);
    HandlersStillOk(u, s.tree, t', s.handlers, h);
    if s.sched.Some? {
      CountKeepsSched(u, s, h);
    }
  }

  // ---- late results of a sealed proof ----

  lemma SameContentsSched(u: Setup, t: State, t': State, d: Sched, running: seq<Assigned>, hs: seq<Handler>)
    requires u.Valid() && SameContents(t, t') && SchedLive(u, t, d, running, hs)
    ensures SchedLive(u, t', d, running, hs)
  {
    SameContentsReady(u, t, t');
    hide Jobs, Handlers, SlotsMatch, WorkersOk, WillWake, AllGood, JobsOk, IsReady, IsStored, Count;
    assert Conserved(u, t', d, running, hs) by {
      forall n: Node | n.level >= 1 ensures Whereabouts(u, t', d, running, hs, n) == Bit(IsReady(u, t', n)) {
        assert Whereabouts(u, t, d, running, hs, n) == Bit(IsReady(u, t, n));
      }
    }
    assert AppsMatch(u, t', d, hs) by {
      forall i: nat | i < u.segments ensures AppAccounted(u, t', d, hs, i) {
        assert AppAccounted(u, t, d, hs, i);
      }
    }
  }

  /** Steps that leave the tree's contents, the messages and the scheduler alone. */
  lemma QuietKeeps(u: Setup, s: Sys, s': Sys)
    requires u.Valid() && Running(u, s) && SameContents(s.tree, s'.tree)
    requires s'.handlers == s.handlers && s'.requested == s.requested && s'.appsSent == s.appsSent && s'.countSent == s.countSent
    requires (s'.sched == s.sched && s'.running == s.running) || (s'.sched.None? && ReadyForFinalization(u.config, s.tree))
    ensures Running(u, s')
  {
    SameContentsReady(u, s.tree, s'.tree);
    if s'.sched.Some? {
      SameContentsSched(u, s.tree, s'.tree, s.sched.value, s.running, s.handlers);
    }
    hide IsReady, Count, SchedLive, IsTreeOk, ReadyForFinalization, AllGood;
    assert HandlersOk(u, s'.tree, s'.handlers) by {
      forall h | h in s'.handlers ensures HandlerOk(u, s'.tree, h) {
        assert HandlerOk(u, s.tree, h);
      }
    }
    assert HistoryExact(u, s'.tree, s'.requested) by {
      forall n: Node ensures Count(u, s'.requested, n) == Bit(IsReady(u, s'.tree, n)) {
        assert Count(u, s.requested, n) == Bit(IsReady(u, s.tree, n));
      }
    }
  }
}
