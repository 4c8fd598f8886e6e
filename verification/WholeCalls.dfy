/** A call of `proof_result` from start to end, as one function on the machine's state: what it
  * leaves behind, and that it is a run of the machine. */
module WholeCalls {
  import opened Protocol
  import opened PriorityQueue
  import opened ProofDriver
  import opened ResultRules
  import opened Scheduler
  import opened SchedulerFacts
  import opened Manager
  import opened Liveness

  function EnqueueAll(s: Sys, i: nat): (s': Sys)
    requires SchedOk(s) && i < |s.handlers|
    ensures SchedOk(s')
    decreases |s.handlers[i].followUps|
  {
    if s.handlers[i].followUps == [] then s else EnqueueAll(EnqueueOne(s, i), i)
  }

  /** `try_finalize_failing_proof`: `expired` says whether the drain deadline has passed. */
  function FinishFailing(u: Setup, s: Sys, expired: bool): (s': Sys)
    requires u.config.Valid() && SchedOk(s)
    ensures SchedOk(s')
  {
    if Enabled(u, s, DrainFailing(expired)) then Do(u, s, DrainFailing(expired)) else s
  }

  /** `proof_result`, start to end. */
  function HandleResult(u: Setup, s: Sys, worker: nat, r: ProofResult, saved: bool, expired: bool): Sys
    requires u.config.Valid() && SchedOk(s)
  {
    var i, s1 := |s.handlers|, Receive(u, s, worker, r);
    match HandleEnvelope(u.config, s.tree, r).1
    case HandlerError(_) => s1
    case Late(_, status) => if status.Failing? then FinishFailing(u, s1, expired) else s1
    case Processed(_, _) => EnqueueAll(FinishFailing(u, AccountPhase(u, s1, i, saved), expired), i)
  }

  lemma AssignOrQueueKeepsWorkers(d: Sched, r: Request)
    ensures Scheduler.AssignOrQueue(d, r).0.numWorkers == d.numWorkers
  {
  }

  lemma AccountKeepsFollowUps(u: Setup, s: Sys, i: nat, saved: bool)
    requires u.config.Valid() && SchedOk(s) && i < |s.handlers|
    ensures AccountPhase(u, s, i, saved).handlers == s.handlers[i := s.handlers[i].(accounted := true)]
  {
    hide Manager.AccountStore;
  }

  lemma EnqueueTakesHead(s: Sys, i: nat)
    requires SchedOk(s) && i < |s.handlers| && s.handlers[i].followUps != []
    ensures var s' := EnqueueOne(s, i); |s'.handlers| == |s.handlers| && s'.handlers[i].followUps == s.handlers[i].followUps[1..]
  {
  }

  // ---- what a call leaves behind ----

  /** All requests that are queued or out on a worker. */
  ghost function Work(s: Sys): multiset<Request> {
    (if s.sched.Some? then multiset(s.sched.value.pending) else multiset{}) + multiset(RequestsOf(s.running))
  }

  lemma RequestsOfConcat(a: seq<Assigned>, b: seq<Assigned>)
    ensures multiset(RequestsOf(a + b)) == multiset(RequestsOf(a)) + multiset(RequestsOf(b))
  {
    assert RequestsOf(a + b) == RequestsOf(a) + RequestsOf(b);
  }

  lemma PlaceConserves(d: Sched, r: Request)
    ensures var (d', a) := AssignOrQueue(d, r);
            multiset(d'.pending) + multiset(RequestsOf(if a.Some? then [a.value] else [])) == multiset(d.pending) + multiset{r}
  {
    InsertKeepsItems(d.pending, r);
    hide FindWorker, Insert, Slot;
    assert RequestsOf([]) == [];
    var a := AssignOrQueue(d, r).1;
    if a.Some? {
      assert RequestsOf([a.value]) == [a.value.request];
    }
  }

  lemma PullConserves(d: Sched, id: nat, r: ProofResult)
    requires d.numWorkers > 0
    ensures var (d', a) := CompleteWork(d, id, r);
            multiset(d'.pending) + multiset(RequestsOf(if a.Some? then [a.value] else [])) == multiset(d.pending)
  {
    hide TryDequeue, CompleteOn, FindId;
    assert RequestsOf([]) == [];
    var c := ApplyCompletion(d, id, r);
    if c.Applied? && c.freed {
      TryDequeueConserves(c.sched);
      var a := TryDequeue(c.sched).1;
      if a.Some? {
        assert RequestsOf([a.value]) == [a.value.request];
      }
    }
  }

  lemma AccountConserves(d: Sched, h: Handler)
    requires d.numWorkers > 0
    ensures var (d', a) := AccountOn(d, h); multiset(d'.pending) + multiset(RequestsOf(a)) == multiset(d.pending)
  {
    hide CompleteWork, DrainPending, ReleaseAllDone, SomeReleased;
    assert RequestsOf([]) == [];
    var counted := if h.result.ExecuteE2Result? then h.result.numSegments else 0;
    SetNumSegmentsKeeps(d, counted);
    DrainPendingConserves(d.(numSegments := Some(counted), workers := ReleaseAllDone(d.workers, counted, d.numWorkers)));
    var (d1, released) := if h.result.ExecuteE2Result? then SetNumSegments(d, h.result.numSegments) else (d, []);
    if !h.sealed {
      PullConserves(d1, h.worker, h.result);
      var pulled := CompleteWork(d1, h.worker, h.result).1;
      RequestsOfConcat(released, if pulled.Some? then [pulled.value] else []);
    }
  }

  /** Whatever the interleaving, accounting for a result moves work between queue and workers only. */
  lemma AccountPhaseConserves(u: Setup, s: Sys, i: nat, saved: bool)
    requires u.config.Valid() && SchedOk(s) && i < |s.handlers|
    ensures var s' := AccountPhase(u, s, i, saved); s.sched.Some? && s'.sched.Some? ==> Work(s') == Work(s)
  {
    hide AccountOn, ReadyForFinalization, FinalArtifact;
    if s.sched.Some? {
      AccountConserves(s.sched.value, s.handlers[i]);
      RequestsOfConcat(s.running, AccountOn(s.sched.value, s.handlers[i]).1);
    }
  }

  ghost predicate SomeSlotHeld(s: Sys) {
    s.sched.Some? && exists w :: 0 <= w < |s.sched.value.workers| && s.sched.value.workers[w].activeCount > 0
  }

  lemma PlaceKeepsHeld(d: Sched, r: Request, w: nat)
    requires w < |d.workers| && d.workers[w].activeCount > 0
    ensures var d' := AssignOrQueue(d, r).0; w < |d'.workers| && d'.workers[w].activeCount > 0
  {
    hide FindWorker, Insert;
  }

  lemma EnqueueOneEffect(s: Sys, i: nat)
    requires SchedOk(s) && i < |s.handlers| && s.handlers[i].followUps != []
    ensures var s' := EnqueueOne(s, i);
            && s'.handlers == s.handlers[i := s.handlers[i].(followUps := s.handlers[i].followUps[1..])]
            && s'.requested == s.requested && s'.tree == s.tree && (s'.sched.Some? <==> s.sched.Some?)
            && (s.sched.Some? ==> Work(s') == Work(s) + multiset{s.handlers[i].followUps[0]})
            && (SomeSlotHeld(s) ==> SomeSlotHeld(s'))
  {
    hide AssignOrQueue, RequestsOf;
    if s.sched.Some? {
      var r := s.handlers[i].followUps[0];
      PlaceConserves(s.sched.value, r);
      var a := AssignOrQueue(s.sched.value, r).1;
      var out := if a.Some? then [a.value] else [];
      RequestsOfConcat(s.running, out);
      var s' := EnqueueOne(s, i);
      assert s'.running == s.running + out && s'.sched == Some(AssignOrQueue(s.sched.value, r).0);
      assert multiset(s'.sched.value.pending) + multiset(RequestsOf(out)) == multiset(s.sched.value.pending) + multiset{r};
      calc {
        Work(s');
        multiset(s'.sched.value.pending) + (multiset(RequestsOf(s.running)) + multiset(RequestsOf(out)));
        (multiset(s.sched.value.pending) + multiset{r}) + multiset(RequestsOf(s.running));
        Work(s) + multiset{r};
      }
      if SomeSlotHeld(s) {
        var w :| 0 <= w < |s.sched.value.workers| && s.sched.value.workers[w].activeCount > 0;
        PlaceKeepsHeld(s.sched.value, r, w);
      }
    }
  }

  /** Phase 3 in full: no follow-up is left in hand, and each is queued or out on a worker. */
  lemma {:induction false} EnqueueAllEffect(s: Sys, i: nat)
    requires SchedOk(s) && i < |s.handlers|
    ensures var s' := EnqueueAll(s, i);
            && s'.handlers == s.handlers[i := s.handlers[i].(followUps := [])]
            && s'.requested == s.requested && s'.tree == s.tree && (s'.sched.Some? <==> s.sched.Some?)
            && (s.sched.Some? ==> Work(s') == Work(s) + multiset(s.handlers[i].followUps))
            && (SomeSlotHeld(s) ==> SomeSlotHeld(s'))
    decreases |s.handlers[i].followUps|
  {
    hide EnqueueOne, Work, SomeSlotHeld;
    var f := s.handlers[i].followUps;
    if f != [] {
      EnqueueOneEffect(s, i);
      EnqueueAllEffect(EnqueueOne(s, i), i);
      assert f == [f[0]] + f[1..];
    }
  }

  /** A call of `proof_result` has run to its end: a processed result has one handler more, accounted
    * for and with no follow-up left in hand, and no other handler has changed; while the scheduler
    * state is there, each follow-up is queued or out on a worker, and nothing else was added or lost;
    * the scheduler state outlasts the call while the proof goes on; and a proof left failing still
    * waits for a slot or its deadline. */
  ghost predicate RanToEnd(u: Setup, s: Sys, s': Sys, worker: nat, r: ProofResult, expired: bool)
    requires u.config.Valid()
  {
    var (t, o) := HandleEnvelope(u.config, s.tree, r);
    var f := if o.Processed? then o.followUps else [];
    && s'.handlers == s.handlers + (if o.Processed? then [Handler(worker, r, o.sealed, true, [])] else [])
    && s'.requested == s.requested + f
    && (s.sched.Some? && s'.sched.Some? ==> Work(s') == Work(s) + multiset(f))
    && (s.sched.Some? && s'.tree.status.InProgress? ==> s'.sched.Some?)
    && (o.Processed? && !o.sealed ==> s'.tree == t)
    && (s'.tree.status.Failing? ==> !expired && SomeSlotHeld(s'))
  }

  lemma FinishFailingEffect(u: Setup, s: Sys, expired: bool)
    requires u.config.Valid() && SchedOk(s)
    ensures var s' := FinishFailing(u, s, expired);
            && s'.handlers == s.handlers && s'.requested == s.requested && s'.running == s.running
            && (!s.tree.status.Failing? ==> s' == s)
            && (s'.tree.status.Failing? ==> !expired && SomeSlotHeld(s'))
            && (s'.sched.Some? ==> s' == s)
            && (s'.tree.status.InProgress? ==> s' == s)
  {
  }

  lemma AccountPhaseEffect(u: Setup, s: Sys, i: nat, saved: bool)
    requires u.config.Valid() && SchedOk(s) && i < |s.handlers| && s.handlers[i].sealed == Sealed(u.config, s.tree)
    ensures var s' := AccountPhase(u, s, i, saved);
            && s'.handlers == s.handlers[i := s.handlers[i].(accounted := true)] && s'.requested == s.requested
            && (s.sched.Some? && s'.tree.status.InProgress? ==> s'.sched.Some?)
            && (!s.handlers[i].sealed ==> s'.tree == s.tree && s.tree.status.InProgress?)
  {
    hide AccountOn, ReadyForFinalization, FinalArtifact;
  }

  lemma SealedFlag(u: Setup, s: Sys, worker: nat, r: ProofResult)
    requires u.config.Valid() && SchedOk(s)
    ensures var o := HandleEnvelope(u.config, s.tree, r).1;
            o.Processed? ==> o.sealed == Sealed(u.config, Receive(u, s, worker, r).tree)
  {
    hide HandleProofResult, Sealed, WorkerDrained;
  }

  lemma NotProcessedKeepsWork(u: Setup, s: Sys, worker: nat, r: ProofResult)
    requires u.config.Valid() && SchedOk(s) && !HandleEnvelope(u.config, s.tree, r).1.Processed?
    ensures var s' := Receive(u, s, worker, r);
            && s'.handlers == s.handlers && s'.requested == s.requested && Work(s') == Work(s) && (s'.sched.Some? <==> s.sched.Some?)
            && s'.tree.status == s.tree.status
            && (HandleEnvelope(u.config, s.tree, r).1.HandlerError? ==> s'.tree.status.InProgress?)
  {
    hide ReadyForFinalization, CompleteOn, FindId, HandleProofResult, Fails;
    if !Sealed(u.config, s.tree) {
      HandlerFailsIff(u.config, s.tree, r);
    }
  }

  /** Every call, from any state and with any result, runs to its end. */
  lemma CallRunsToEnd(u: Setup, s: Sys, worker: nat, r: ProofResult, saved: bool, expired: bool)
    requires u.config.Valid() && SchedOk(s)
    ensures RanToEnd(u, s, HandleResult(u, s, worker, r, saved, expired), worker, r, expired)
  {
    hide HandleEnvelope, AccountPhase, FinishFailing, EnqueueAll, Work, SomeSlotHeld, Sealed;
    var o, i, s1 := HandleEnvelope(u.config, s.tree, r).1, |s.handlers|, Receive(u, s, worker, r);
    if o.Processed? {
      ProcessedRunsToEnd(u, s, worker, r, saved, expired);
    } else {
      NotProcessedKeepsWork(u, s, worker, r);
      assert s.requested + [] == s.requested && s.handlers + [] == s.handlers;
      FinishFailingEffect(u, s1, expired);
      SameWork(s1, FinishFailing(u, s1, expired));
      LateStatus(u, s, r);
    }
  }

  lemma LateStatus(u: Setup, s: Sys, r: ProofResult)
    requires u.config.Valid()
    ensures var o := HandleEnvelope(u.config, s.tree, r).1; o.Late? ==> o.status == s.tree.status
  {
    hide HandleProofResult, Sealed;
  }

  lemma SameWork(s: Sys, s': Sys)
    requires s'.sched.Some? ==> s' == s
    ensures s'.sched.Some? ==> Work(s') == Work(s)
  {
  }

  lemma ProcessedRunsToEnd(u: Setup, s: Sys, worker: nat, r: ProofResult, saved: bool, expired: bool)
    requires u.config.Valid() && SchedOk(s) && HandleEnvelope(u.config, s.tree, r).1.Processed?
    ensures RanToEnd(u, s, HandleResult(u, s, worker, r, saved, expired), worker, r, expired)
  {
    hide HandleEnvelope, AccountPhase, FinishFailing, EnqueueAll, SomeSlotHeld, Sealed;
    var o, i, s1 := HandleEnvelope(u.config, s.tree, r).1, |s.handlers|, Receive(u, s, worker, r);
    SealedFlag(u, s, worker, r);
    assert s1.handlers == s.handlers + [Handler(worker, r, o.sealed, false, o.followUps)] && s1.running == s.running && s1.sched == s.sched;
    assert Work(s1) == Work(s);
    hide Receive, Work;
    var s2 := AccountPhase(u, s1, i, saved);
    AccountPhaseEffect(u, s1, i, saved);
    AccountPhaseConserves(u, s1, i, saved);
    var s3 := FinishFailing(u, s2, expired);
    FinishFailingEffect(u, s2, expired);
    SameWork(s2, s3);
    EnqueueAllEffect(s3, i);
    var s4 := EnqueueAll(s3, i);
    assert HandleResult(u, s, worker, r, saved, expired) == s4;
    assert s4.handlers == s.handlers + [Handler(worker, r, o.sealed, true, [])];
  }

  // ---- an uninterrupted call is a run ----

  ghost function EnqueueEvents(i: nat, k: nat): seq<Event> {
    if k == 0 then [] else EnqueueEvents(i, k - 1) + [Event.Enqueue(i)]
  }

  lemma {:induction false} EnqueueAllIsRun(u: Setup, events: seq<Event>, i: nat)
    requires u.config.Valid() && u.StarkWorkers() > 0
    requires i < |Run(u, events).handlers| && Run(u, events).handlers[i].accounted
    ensures Run(u, events + EnqueueEvents(i, |Run(u, events).handlers[i].followUps|)) == EnqueueAll(Run(u, events), i)
    decreases |Run(u, events).handlers[i].followUps|
  {
    hide Run, Do, EnqueueOne, Enabled;
    var s := Run(u, events);
    var k := |s.handlers[i].followUps|;
    if k == 0 {
      assert events + [] == events;
    } else {
      var next := events + [Event.Enqueue(i)];
      RunOneMore(u, events, Event.Enqueue(i));
      EnqueueIsDo(u, s, i);
      EnqueueAllIsRun(u, next, i);
      EnqueueEventsFront(i, k - 1);
      assert next + EnqueueEvents(i, k - 1) == events + ([Event.Enqueue(i)] + EnqueueEvents(i, k - 1));
    }
  }

  lemma EnqueueIsDo(u: Setup, s: Sys, i: nat)
    requires u.config.Valid() && SchedOk(s) && i < |s.handlers| && s.handlers[i].followUps != [] && s.handlers[i].accounted
    ensures Enabled(u, s, Event.Enqueue(i)) && Do(u, s, Event.Enqueue(i)) == EnqueueOne(s, i)
    ensures var s' := EnqueueOne(s, i);
            |s'.handlers| == |s.handlers| && s'.handlers[i].followUps == s.handlers[i].followUps[1..] && s'.handlers[i].accounted
  {
  }

  lemma {:induction false} EnqueueEventsAre(i: nat, k: nat)
    ensures forall x :: x in EnqueueEvents(i, k) ==> x == Event.Enqueue(i)
  {
    if k > 0 {
      EnqueueEventsAre(i, k - 1);
    }
  }

  lemma {:induction false} EnqueueEventsFront(i: nat, k: nat)
    ensures EnqueueEvents(i, k + 1) == [Event.Enqueue(i)] + EnqueueEvents(i, k)
  {
    if k > 0 {
      EnqueueEventsFront(i, k - 1);
    }
  }

  /** The events of one call after the delivery: those of its own handler, and the drain check. */
  ghost predicate OfCall(e: Event, i: nat, saved: bool, expired: bool) {
    e == Event.Account(i, saved) || e == DrainFailing(expired) || e == Event.Enqueue(i)
  }

  /** A result handled without interruption is a run: its delivery, then events of its own handler and
    * the drain check, to the end. So all that holds of runs holds of such calls, and a state with no
    * result between its phases is followed by another. */
  lemma CallIsRun(u: Setup, events: seq<Event>, e: Event, saved: bool, expired: bool) returns (more: seq<Event>)
    requires u.config.Valid() && u.StarkWorkers() > 0 && Delivers(e) && Enabled(u, Run(u, events), e)
    ensures var s, s' := Run(u, events), Run(u, events + more);
            && s' == HandleResult(u, Found(u, s, e), Sender(u, s, e), Sent(u, s, e), saved, expired)
            && RanToEnd(u, Found(u, s, e), s', Sender(u, s, e), Sent(u, s, e), expired)
            && (Quiet(s.handlers) ==> Quiet(s'.handlers))
    ensures more != [] && more[0] == e && forall x :: x in more[1..] ==> OfCall(x, |Run(u, events).handlers|, saved, expired)
  {
    hide Run, Do, Receive, Sent, Sender, HandleResult, Enabled, RanToEnd, OfCall;
    var s := Run(u, events);
    var delivered := events + [e];
    RunOneMore(u, events, e);
    DeliverIsReceive(u, s, e);
    more := RestOfCall(u, delivered, Found(u, s, e), Sender(u, s, e), Sent(u, s, e), saved, expired);
    assert events + ([e] + more) == delivered + more;
    more := [e] + more;
    CallRunsToEnd(u, Found(u, s, e), Sender(u, s, e), Sent(u, s, e), saved, expired);
    if Quiet(s.handlers) {
      EndIsQuiet(u, Found(u, s, e), Run(u, events + more), Sender(u, s, e), Sent(u, s, e), expired);
    }
  }

  lemma EndIsQuiet(u: Setup, s: Sys, s': Sys, worker: nat, r: ProofResult, expired: bool)
    requires u.config.Valid() && RanToEnd(u, s, s', worker, r, expired) && Quiet(s.handlers)
    ensures Quiet(s'.handlers)
  {
    hide HandleEnvelope, Work, SomeSlotHeld;
  }

  lemma DeliverIsReceive(u: Setup, s: Sys, e: Event)
    requires u.config.Valid() && SchedOk(s) && Delivers(e) && Enabled(u, s, e)
    ensures SchedOk(Found(u, s, e)) && Do(u, s, e) == Receive(u, Found(u, s, e), Sender(u, s, e), Sent(u, s, e))
  {
    hide Receive, Sender, Sent;
  }

  lemma RestOfCall(u: Setup, delivered: seq<Event>, s: Sys, worker: nat, r: ProofResult, saved: bool, expired: bool)
    returns (more: seq<Event>)
    requires u.config.Valid() && u.StarkWorkers() > 0 && SchedOk(s) && Run(u, delivered) == Receive(u, s, worker, r)
    ensures Run(u, delivered + more) == HandleResult(u, s, worker, r, saved, expired)
    ensures forall x :: x in more ==> OfCall(x, |s.handlers|, saved, expired)
  {
    hide HandleEnvelope, Run, Do, AccountPhase, FinishFailing;
    var outcome := HandleEnvelope(u.config, s.tree, r).1;
    match outcome
    case HandlerError(_) =>
      more := [];
      assert delivered + [] == delivered;
    case Late(_, status) =>
      if status.Failing? {
        more := [DrainFailing(expired)];
        RunOneMore(u, delivered, DrainFailing(expired));
        FinishIsDo(u, Run(u, delivered), expired);
      } else {
        more := [];
        assert delivered + [] == delivered;
      }
    case Processed(f, isSealed) =>
      assert Run(u, delivered).handlers == s.handlers + [Handler(worker, r, isSealed, false, f)];
      hide Receive;
      more := AccountAndEnqueue(u, delivered, |s.handlers|, saved, expired);
  }

  lemma AccountAndEnqueue(u: Setup, delivered: seq<Event>, i: nat, saved: bool, expired: bool) returns (more: seq<Event>)
    requires u.config.Valid() && u.StarkWorkers() > 0
    requires i < |Run(u, delivered).handlers| && !Run(u, delivered).handlers[i].accounted
    ensures i < |FinishFailing(u, AccountPhase(u, Run(u, delivered), i, saved), expired).handlers|
    ensures Run(u, delivered + more) == EnqueueAll(FinishFailing(u, AccountPhase(u, Run(u, delivered), i, saved), expired), i)
    ensures forall x :: x in more ==> OfCall(x, i, saved, expired)
  {
    hide Run, Do, AccountPhase, FinishFailing, EnqueueAll;
    var account := delivered + [Event.Account(i, saved)];
    var drained := account + [DrainFailing(expired)];
    RunOneMore(u, delivered, Event.Account(i, saved));
    AccountIsDo(u, Run(u, delivered), i, saved);
    AccountKeepsFollowUps(u, Run(u, delivered), i, saved);
    RunOneMore(u, account, DrainFailing(expired));
    FinishIsDo(u, Run(u, account), expired);
    EnqueueAllIsRun(u, drained, i);
    var enqueues := EnqueueEvents(i, |Run(u, drained).handlers[i].followUps|);
    more := [Event.Account(i, saved), DrainFailing(expired)] + enqueues;
    EnqueueEventsAre(i, |Run(u, drained).handlers[i].followUps|);
    assert delivered + more == drained + enqueues;
  }

  lemma AccountIsDo(u: Setup, s: Sys, i: nat, saved: bool)
    requires u.config.Valid() && SchedOk(s) && i < |s.handlers| && !s.handlers[i].accounted
    ensures Enabled(u, s, Event.Account(i, saved)) && Do(u, s, Event.Account(i, saved)) == AccountPhase(u, s, i, saved)
  {
    hide AccountPhase;
  }

  lemma FinishIsDo(u: Setup, s: Sys, expired: bool)
    requires u.config.Valid() && SchedOk(s)
    ensures FinishFailing(u, s, expired).handlers == s.handlers
    ensures FinishFailing(u, s, expired) == if Enabled(u, s, DrainFailing(expired)) then Do(u, s, DrainFailing(expired)) else s
  {
  }
}
