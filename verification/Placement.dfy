/** Where jobs run, in every live state of every run: in terms of roles and slots alone. */
module Placement {
  import opened Protocol
  import opened PriorityQueue
  import opened ProofDriver
  import opened Scheduler
  import opened SchedulerFacts
  import opened Manager
  import opened ManagerInvariant
  import opened InvariantHolds
  import opened Safety
  import opened Liveness

  lemma LiveScheduler(u: Setup, s: Sys)
    requires u.Valid() && Inv(u, s) && s.tree.status.InProgress? && s.sched.Some?
    ensures SchedLive(u, s.tree, s.sched.value, s.running, s.handlers)
  {
  }

  lemma SameRoles(u: Setup, t: State, d: Sched, running: seq<Assigned>, hs: seq<Handler>)
    requires u.Valid() && SchedLive(u, t, d, running, hs)
    ensures |d.workers| == |u.roles| && forall w :: 0 <= w < |u.roles| ==> d.workers[w].role == u.roles[w]
  {
  }

  lemma SlotFitsRole(s: Sched, w: nat, r: Request)
    requires WorkersOk(s) && w < |s.workers| && Slot(r) in s.workers[w].active
    ensures if r.EvmRequest? then !s.workers[w].role.StarkOnly? else !s.workers[w].role.EvmDedicated?
  {
    assert WorkerOk(s.workers[w], s.maxLeafProvers);
  }

  /** Every running job is on a worker whose role has the prover for it, and holds a slot there: an EVM
    * step never on a STARK-only worker, a leaf or internal proof never on a dedicated one. */
  lemma JobsRunWhereTheyCan(u: Setup, events: seq<Event>, j: nat)
    requires u.Valid()
    requires var s := Run(u, events); s.tree.status.InProgress? && s.sched.Some? && j < |s.running|
    ensures var s := Run(u, events);
            var w, r := s.running[j].workerId, s.running[j].request;
            && w < |u.roles| == |s.sched.value.workers| && Slot(r) in s.sched.value.workers[w].active
            && if r.EvmRequest? then u.roles[w] == Full || u.roles[w] == EvmDedicated else u.roles[w] == Full || u.roles[w] == StarkOnly
  {
    var s := Run(u, events);
    RunKeepsInv(u, events);
    SchedulerStaysSound(u, events);
    hide Run, Inv, SchedLive, WorkersOk;
    LiveScheduler(u, s);
    SameRoles(u, s.tree, s.sched.value, s.running, s.handlers);
    RunningJobHoldsSlot(u, s.tree, s.sched.value, s.running, s.handlers, j);
    SlotFitsRole(s.sched.value, s.running[j].workerId, s.running[j].request);
  }

  /** In every live state, enqueueing a follow-up sends it out if and only if some worker can take it,
    * and then to one that can; otherwise it is queued. */
  lemma EnqueueSendsIff(u: Setup, events: seq<Event>, i: nat)
    requires u.Valid() && Enabled(u, Run(u, events), Enqueue(i))
    requires var s := Run(u, events); s.tree.status.InProgress? && s.sched.Some?
    ensures var s, s' := Run(u, events), Run(u, events + [Enqueue(i)]);
            var d, r := s.sched.value, s.handlers[i].followUps[0];
            && s'.sched.Some?
            && if w :| 0 <= w < |d.workers| && CanTake(d, w, r) then
                 && s'.sched.value.pending == d.pending
                 && exists v :: 0 <= v < |d.workers| && CanTake(d, v, r) && s'.running == s.running + [Assigned(v, r)]
               else s'.running == s.running && multiset(s'.sched.value.pending) == multiset(d.pending) + multiset{r}
  {
    var s := Run(u, events);
    var d, r := s.sched.value, s.handlers[i].followUps[0];
    SchedulerStaysSound(u, events);
    RunOneMore(u, events, Enqueue(i));
    HandedOutIff(d, r);
    InsertKeepsItems(d.pending, r);
    hide Run, CanTake, FindWorker, Insert;
    assert s.running + [] == s.running;
    var found := FindWorker(d, r.Step());
    if found.Some? {
      assert d.workers[found.value].id == found.value;
    }
  }
}
