/** How a failing proof drains: what a late result frees, what the result that failed the proof does
  * not, and exactly when the drain ends before its deadline. */
module Draining {
  import opened Protocol
  import opened ProofDriver
  import opened ResultRules
  import opened Scheduler
  import opened SchedulerFacts
  import opened SlotAccounting
  import opened Manager
  import opened AccountPhaseProof
  import opened Dispatching
  import opened WholeCalls

  // ---- the phases around a failure ----

  /** The scheduler is told the count even by a result that failed the proof. */
  lemma CountIsAlwaysTold(u: Setup, s: Sys, i: nat, saved: bool)
    requires u.config.Valid() && SchedOk(s) && i < |s.handlers| && s.handlers[i].result.ExecuteE2Result?
    ensures var s' := AccountPhase(u, s, i, saved);
            s'.sched.Some? ==> s'.sched.value.numSegments == Some(s.handlers[i].result.numSegments)
  {
    if s.sched.Some? {
      var d, h := s.sched.value, s.handlers[i];
      AccountCountEffect(d, h);
      DrainPendingKeeps(Counted(d, h.result.numSegments));
    }
    hide ReadyForFinalization, FinalArtifact, AccountOn, DrainPending, ReleaseAllDone;
  }

  /** Out of a proof in progress, a call with a failing result leaves every slot as it was, the
    * reporting worker's own included. So without its deadline the proof is over at once if no slot
    * was held, and otherwise waits. */
  lemma FailureWaitsIffHeld(u: Setup, s: Sys, worker: nat, r: ProofResult, saved: bool)
    requires u.config.Valid() && SchedOk(s) && s.sched.Some? && !Sealed(u.config, s.tree) && Fails(u.config, s.tree, r)
    requires !r.ExecuteE2Result?
    ensures var s' := HandleResult(u, s, worker, r, saved, false);
            if SomeSlotHeld(s) then s'.tree.status.Failing? && s'.sched == s.sched && s'.running == s.running
            else s'.tree.status.Failed? && s'.sched.None?
  {
    ResultFailsIff(u.config, s.tree, r);
    hide HandleEnvelope, Fails, Sealed, ReadyForFinalization;
    var s1 := Receive(u, s, worker, r);
    SealingResultFreesNothing(u, s1, |s.handlers|, saved);
    hide AccountPhase, Receive;
  }

  /** The least input: one worker, owing one app proof, reports that it failed. Nothing else can come, and
    * the proof waits for its deadline all the same. */
  lemma LastReportDoesNotEnd()
    ensures ONE.Valid() && |Init(ONE).sched.value.workers| == 1
    ensures var s' := HandleResult(ONE, Init(ONE), 0, ErrorResult("sharded_app_prove", "out of memory"), true, false);
            s'.tree.status.Failing? && s'.sched == Init(ONE).sched && s'.running == []
  {
    OneIsValid();
    assert SomeSlotHeld(Init(ONE)) by { assert [HELD][0].activeCount == 1; }
    FailureWaitsIffHeld(ONE, Init(ONE), 0, ErrorResult("sharded_app_prove", "out of memory"), true);
    hide HandleResult, Config.FinalLayer;
  }

  /** The phase that would free a slot skips a result that sealed the proof by failing it. */
  lemma SealingResultFreesNothing(u: Setup, s: Sys, i: nat, saved: bool)
    requires u.config.Valid() && SchedOk(s) && i < |s.handlers| && s.handlers[i].sealed && !s.handlers[i].result.ExecuteE2Result?
    requires s.tree.status.Failing?
    ensures AccountPhase(u, s, i, saved) == s.(handlers := s.handlers[i := s.handlers[i].(accounted := true)])
  {
    assert s.running + [] == s.running;
  }

  // ---- the drain ----

  /** Late results, each handled to the end of its call before the deadline. */
  function HandleLate(u: Setup, s: Sys, late: seq<(nat, ProofResult)>): Sys
    requires u.config.Valid() && SchedOk(s)
    decreases |late|
  {
    if late == [] then s
    else
      HandleResultKeepsSched(u, s, late[0].0, late[0].1);
      HandleLate(u, HandleResult(u, s, late[0].0, late[0].1, true, false), late[1..])
  }

  lemma HandleResultKeepsSched(u: Setup, s: Sys, worker: nat, r: ProofResult)
    requires u.config.Valid() && SchedOk(s)
    ensures SchedOk(HandleResult(u, s, worker, r, true, false))
  {
    hide HandleEnvelope, AccountPhase, FinishFailing, EnqueueAll;
  }

  /** How many of the late results answer slot `x` of worker `w`. */
  ghost function Answers(late: seq<(nat, ProofResult)>, w: nat, x: ActiveProof): nat {
    if late == [] then 0
    else Answers(late[1..], w, x) + if late[0].0 == w && SlotOf(late[0].1) == Some(x) then 1 else 0
  }

  ghost predicate AnswerJobs(s: Sched, late: seq<(nat, ProofResult)>) {
    && (forall i :: 0 <= i < |late| ==> late[i].0 < |s.workers| && SlotOf(late[i].1).Some?)
    && (forall w: nat, x :: w < |s.workers| ==> Answers(late, w, x) <= SlotCount(s, w, x))
  }

  ghost predicate AnswerAll(s: Sched, late: seq<(nat, ProofResult)>) {
    forall w: nat, x :: w < |s.workers| ==> Answers(late, w, x) == SlotCount(s, w, x)
  }

  ghost predicate Draining(s: Sys) {
    s.tree.status.Failing? && s.sched.Some? && s.sched.value.numWorkers > 0 && WorkersOk(s.sched.value)
  }

  /** One late result of a failing proof frees its slot; the last one ends the proof. */
  lemma LateCall(u: Setup, s: Sys, worker: nat, r: ProofResult)
    requires u.config.Valid() && Draining(s) && worker < |s.sched.value.workers|
    ensures var d := WorkerDrained(s.sched.value, worker, r);
            var s' := HandleResult(u, s, worker, r, true, false);
            && SchedOk(s') && s'.handlers == s.handlers && s'.running == s.running
            && (if IsFullyDrained(d) then s'.tree.status == Failed(s.tree.status.reason) && s'.sched.None?
                else s'.tree.status == s.tree.status && s'.sched == Some(d))
  {
    DrainedOn(s.sched.value, worker, r);
    hide CompleteOn, WorkersOk;
    assert Sealed(u.config, s.tree);
    hide ReadyForFinalization;
  }

  lemma NoSlotCounted(d: Sched)
    requires WorkersOk(d)
    ensures IsFullyDrained(d) <==> forall w: nat, x :: w < |d.workers| ==> SlotCount(d, w, x) == 0
  {
    DrainedIffNoSlots(d);
    hide IsFullyDrained, WorkersOk;
    forall w: nat | w < |d.workers| ensures d.workers[w].active == [] <==> forall x :: SlotCount(d, w, x) == 0 {
      if d.workers[w].active != [] {
        assert d.workers[w].active[0] in multiset(d.workers[w].active);
        assert SlotCount(d, w, d.workers[w].active[0]) > 0;
      }
    }
  }

  lemma AnswersStep(d: Sched, late: seq<(nat, ProofResult)>)
    requires WorkersOk(d) && d.numWorkers > 0 && AnswerJobs(d, late) && late != []
    ensures var d' := WorkerDrained(d, late[0].0, late[0].1);
            && WorkersOk(d') && |d'.workers| == |d.workers| && d'.numWorkers == d.numWorkers
            && AnswerJobs(d', late[1..]) && (AnswerAll(d', late[1..]) <==> AnswerAll(d, late))
  {
    hide WorkersOk, WorkerDrained, SlotCount, SlotOf;
    var v, r := late[0].0, late[0].1;
    var x0 := SlotOf(r).value;
    assert Answers(late, v, x0) >= 1;
    assert SlotCount(d, v, x0) >= 1;
    SlotDropped(d, v, r);
    var d' := WorkerDrained(d, v, r);
    forall w: nat, x | w < |d.workers|
      ensures Answers(late, w, x) - SlotCount(d, w, x) == Answers(late[1..], w, x) - SlotCount(d', w, x)
    {
      assert SlotCount(d', w, x) == SlotCount(d, w, x) - if w == v && x == x0 then 1 else 0;
    }
    hide Answers;
  }

  lemma SlotDropped(d: Sched, v: nat, r: ProofResult)
    requires WorkersOk(d) && d.numWorkers > 0 && v < |d.workers| && SlotOf(r).Some? && SlotCount(d, v, SlotOf(r).value) >= 1
    ensures var d' := WorkerDrained(d, v, r);
            && WorkersOk(d') && |d'.workers| == |d.workers| && d'.numWorkers == d.numWorkers
            && forall w: nat, x :: w < |d.workers| ==>
                 SlotCount(d', w, x) == SlotCount(d, w, x) - if w == v && x == SlotOf(r).value then 1 else 0
  {
    DrainedFreesSlot(d, v, r);
    hide WorkersOk, WorkerDrained, SlotOf;
  }

  /** Drain by completion: late results that answer held slots end a failing proof, before its
    * deadline and with its own reason, if and only if they answer every slot that is held. */
  lemma {:induction false} DrainsIffAllAnswered(u: Setup, s: Sys, late: seq<(nat, ProofResult)>)
    requires u.config.Valid() && Draining(s) && late != [] && AnswerJobs(s.sched.value, late)
    ensures var s' := HandleLate(u, s, late);
            if AnswerAll(s.sched.value, late) then s'.tree.status == Failed(s.tree.status.reason) && s'.sched.None?
            else s'.tree.status == s.tree.status && s'.sched.Some?
    decreases |late|
  {
    hide HandleResult, WorkersOk, WorkerDrained, IsFullyDrained;
    var d, rest := s.sched.value, late[1..];
    var d' := WorkerDrained(d, late[0].0, late[0].1);
    LateCall(u, s, late[0].0, late[0].1);
    AnswersStep(d, late);
    NoSlotCounted(d');
    if rest != [] {
      assert Answers(rest, rest[0].0, SlotOf(rest[0].1).value) >= 1;
      assert SlotCount(d', rest[0].0, SlotOf(rest[0].1).value) >= 1;
      DrainsIffAllAnswered(u, HandleResult(u, s, late[0].0, late[0].1, true, false), rest);
    }
  }

  /** So where the reporting worker still holds a slot, no set of late results that leaves it out ends
    * the drain. */
  lemma UnansweredSlotHoldsDrain(u: Setup, s: Sys, late: seq<(nat, ProofResult)>, w: nat, x: ActiveProof)
    requires u.config.Valid() && Draining(s) && AnswerJobs(s.sched.value, late)
    requires w < |s.sched.value.workers| && Answers(late, w, x) < SlotCount(s.sched.value, w, x)
    ensures HandleLate(u, s, late).tree.status == s.tree.status
  {
    if late != [] {
      DrainsIffAllAnswered(u, s, late);
    }
    hide HandleLate, Answers;
  }
}
