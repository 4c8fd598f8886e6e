/** The queue of every run is in class order, so what a drain leaves at its head is what no worker
  * can take. */
module QueueOrder {
  import opened Protocol
  import opened PriorityQueue
  import opened ProofDriver
  import opened Scheduler
  import opened SchedulerFacts
  import opened Manager
  import opened AccountPhaseProof

  ghost predicate InOrder(s: Sys) {
    s.sched.Some? ==> Sorted(s.sched.value.pending)
  }

  lemma PlaceKeepsOrder(d: Sched, r: Request)
    requires Sorted(d.pending)
    ensures Sorted(AssignOrQueue(d, r).0.pending)
  {
    InsertSorted(d.pending, r);
    hide FindWorker, Insert, Sorted;
  }

  lemma DequeueKeepsOrder(d: Sched)
    requires Sorted(d.pending)
    ensures Sorted(TryDequeue(d).0.pending)
  {
    if d.pending != [] {
      SortedParts(d.pending);
      InsertSorted(d.pending[1..], d.pending[0]);
    }
    hide FindWorker, Insert, Sorted;
  }

  lemma CompletionKeepsQueue(d: Sched, worker: nat, r: ProofResult)
    requires d.numWorkers > 0
    ensures WorkerDrained(d, worker, r).pending == d.pending
    ensures var c := ApplyCompletion(d, worker, r); c.Applied? ==> c.sched.pending == d.pending
  {
  }

  lemma AccountKeepsOrder(d: Sched, h: Handler)
    requires d.numWorkers > 0 && Sorted(d.pending)
    ensures Sorted(AccountOn(d, h).0.pending)
  {
    if h.result.ExecuteE2Result? {
      AccountCountEffect(d, h);
      DrainStopsAtHead(Counted(d, h.result.numSegments));
      hide DrainPending, AccountOn, Sorted;
    } else {
      CompletionKeepsQueue(d, h.worker, h.result);
      var done := ApplyCompletion(d, h.worker, h.result);
      if done.Applied? {
        DequeueKeepsOrder(done.sched);
      }
      hide ApplyCompletion, TryDequeue, Sorted;
    }
  }

  lemma ReceiveKeepsOrder(u: Setup, s: Sys, worker: nat, r: ProofResult)
    requires u.config.Valid() && SchedOk(s) && InOrder(s)
    ensures InOrder(Receive(u, s, worker, r))
  {
    if s.sched.Some? {
      CompletionKeepsQueue(s.sched.value, worker, r);
    }
    hide HandleEnvelope, WorkerDrained, Sorted;
  }

  lemma EventKeepsOrder(u: Setup, s: Sys, e: Event)
    requires u.config.Valid() && SchedOk(s) && Enabled(u, s, e) && InOrder(s)
    ensures InOrder(Do(u, s, e))
  {
    if Delivers(e) {
      ReceiveKeepsOrder(u, Found(u, s, e), Sender(u, s, e), Sent(u, s, e));
    } else if s.sched.Some? {
      match e
      case Account(i, _) => AccountKeepsOrder(s.sched.value, s.handlers[i]);
      case Enqueue(i) => PlaceKeepsOrder(s.sched.value, s.handlers[i].followUps[0]);
      case _ =>
    }
    hide Receive, Sender, Sent, AccountOn, AssignOrQueue, ReadyForFinalization, Sorted;
  }

  /** In every state of every run the queue is in class order. */
  lemma {:induction false} QueueInOrder(u: Setup, events: seq<Event>)
    requires u.config.Valid() && u.StarkWorkers() > 0
    ensures InOrder(Run(u, events))
  {
    hide Do, Enabled;
    if events != [] {
      var s, e := Run(u, events[..|events| - 1]), events[|events| - 1];
      QueueInOrder(u, events[..|events| - 1]);
      if Enabled(u, s, e) {
        EventKeepsOrder(u, s, e);
      }
    }
  }

  /** In a run, accounting for a count that releases a worker drains the queue until it is empty or
    * its head is an item that no worker can take. */
  lemma DrainInRunStopsAtHead(u: Setup, events: seq<Event>, i: nat, saved: bool)
    requires u.config.Valid() && u.StarkWorkers() > 0 && Enabled(u, Run(u, events), Account(i, saved))
    requires var s := Run(u, events);
             s.sched.Some? && s.handlers[i].result.ExecuteE2Result?
             && SomeReleased(s.sched.value.workers, s.handlers[i].result.numSegments, s.sched.value.numWorkers)
    ensures var s' := Do(u, Run(u, events), Account(i, saved));
            s'.sched.Some? ==>
              var d := s'.sched.value;
              Sorted(d.pending) && (d.pending == [] || FindWorker(d, d.pending[0].Step()).None?)
  {
    var s := Run(u, events);
    var d, n := s.sched.value, s.handlers[i].result.numSegments;
    QueueInOrder(u, events);
    AccountCountEffect(d, s.handlers[i]);
    DrainStopsAtHead(Counted(d, n));
    hide Run, AccountOn, DrainPending, FindWorker, Sorted, SomeReleased, ReadyForFinalization;
  }
}
