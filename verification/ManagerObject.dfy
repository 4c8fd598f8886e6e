/** The manager's handling of one proof (`handlers.rs`) over the two shared objects it locks:
  * the proof state and the scheduler state. Each phase method is one step of the `Manager`
  * machine, and a call that is not interrupted is the whole call of `WholeCalls`. */
module ManagerObject {
  import opened Protocol
  import opened ProofDriver
  import opened Scheduler
  import opened SchedulerFacts
  import opened Manager
  import opened WholeCalls
  import opened ProofStateObject
  import opened SchedulerObject

  class ProofManager {
    const setup: Setup
    const proof: ProofState
    var store: EdgeProofState?           // null once removed
    var running: seq<Assigned>
    var persisted: Option<Payload>
    ghost var handlers: seq<Handler>
    ghost var countSent: bool
    ghost var appsSent: set<nat>
    ghost var requested: seq<Request>

    ghost predicate Valid()
      reads this, Footprint()
    {
      && proof.config == setup.config && setup.config.Valid()
      && (store != null ==> store.Valid() && store.numWorkers > 0)
    }

    ghost function Footprint(): set<object>
      reads this
    {
      {this, proof} + if store == null then {} else {store, store.pending}
    }

    ghost function View(): Sys
      reads this, Footprint()
    {
      Sys(proof.View(), if store == null then None else Some(store.View()), running, handlers, countSent, appsSent, persisted, requested)
    }

    constructor (u: Setup)
      requires u.config.Valid() && u.StarkWorkers() > 0
      ensures setup == u && Valid() && View() == Init(u) && fresh(Footprint())
    {
      setup := u;
      proof := new ProofState(u.config);
      store := new EdgeProofState(u.Ready(), u.leafPackThreshold, u.maxLeafProvers);
      running, persisted, handlers, countSent, appsSent, requested := [], None, [], false, {}, [];
    }

    /** Phase 1, under the proof lock; a late result of a failing proof is drained. */
    method Receive(worker: nat, r: ProofResult) returns (outcome: Outcome)
      requires Valid()
      modifies Footprint()
      ensures Valid() && Footprint() == old(Footprint())
      ensures View() == Manager.Receive(setup, old(View()), worker, r)
      ensures outcome == HandleEnvelope(setup.config, old(proof.View()), r).1
    {
      hide HandleEnvelope, Scheduler.WorkerDrained;
      outcome := proof.HandleProofResultWithEnvelopeOutcome(r);
      match outcome {
        case Late(_, status) =>
          if status.Failing? && store != null {
            store.WorkerDrained(worker, r);
          }
        case HandlerError(_) =>
        case Processed(f, isSealed) =>
          handlers := handlers + [Handler(worker, r, isSealed, false, f)];
          requested := requested + f;
      }
    }

    /** Phase 2, under the scheduler lock: the count, the completion, and finalization. */
    method Account(worker: nat, r: ProofResult, isSealed: bool, saved: bool, ghost i: nat)
      requires Valid() && i < |handlers| && handlers[i].worker == worker && handlers[i].result == r && handlers[i].sealed == isSealed
      modifies Footprint()
      ensures Valid() && Footprint() <= old(Footprint())
      ensures View() == AccountPhase(setup, old(View()), i, saved)
    {
      ghost var before := View();
      AccountStore(worker, r, isSealed, i);
      handlers := handlers[i := handlers[i].(accounted := true)];
      if isSealed && !proof.status.Failing? {
        hide Scheduler.CompleteWork, Scheduler.SetNumSegments;
        Finish(saved);
        store := null;
      }
    }

    method AccountStore(worker: nat, r: ProofResult, isSealed: bool, ghost i: nat)
      requires Valid() && i < |handlers| && handlers[i].worker == worker && handlers[i].result == r && handlers[i].sealed == isSealed
      modifies this`running, store, if store == null then {} else {store.pending}
      ensures Valid() && Footprint() == old(Footprint())
      ensures View() == old(View()).(sched := Manager.AccountStore(old(View()).sched, handlers[i]).0,
                                     running := old(running) + Manager.AccountStore(old(View()).sched, handlers[i]).1)
    {
      hide Scheduler.CompleteWork, Scheduler.SetNumSegments;
      if store == null {
        assert running + [] == running;
        return;
      }
      ghost var d := store.View();
      SetNumSegmentsKeeps(d, if r.ExecuteE2Result? then r.numSegments else 0);
      var handedOut := [];
      if r.ExecuteE2Result? {
        handedOut := store.SetNumSegments(r.numSegments);
      }
      if !isSealed {
        var pulled := store.CompleteWork(worker, r);
        handedOut := handedOut + if pulled.Some? then [pulled.value] else [];
      }
      assert (store.View(), handedOut) == AccountOn(d, handlers[i]);
      running := running + handedOut;
    }

    /** `finalize_proof`: persist where configured, then publish the final status. */
    method Finish(saved: bool)
      requires Valid()
      modifies this`persisted, proof
      ensures Valid()
      ensures var s := old(View());
              var finishing := s.tree.status.InProgress? && ReadyForFinalization(setup.config, s.tree);
              View() == s.(tree := Finalize(setup.config, s.tree, if setup.persists then Some(saved) else None),
                           persisted := if finishing && setup.persists && saved then FinalArtifact(setup.config, s.tree) else s.persisted)
    {
      hide ReadyForFinalization, FinalInternal;
      var ready := proof.IsReadyForFinalization();
      if proof.status.InProgress? && ready && setup.persists && saved {
        persisted := FinalArtifact(setup.config, proof.View());
      }
      proof.Finalize(if setup.persists then Some(saved) else None);
    }

    /** Phase 3, one follow-up under the scheduler lock. */
    method Enqueue(request: Request, ghost i: nat)
      requires Valid() && i < |handlers| && handlers[i].followUps != [] && handlers[i].followUps[0] == request
      modifies Footprint()
      ensures Valid() && Footprint() == old(Footprint())
      ensures View() == EnqueueOne(old(View()), i)
    {
      hide Scheduler.AssignOrQueue;
      handlers := handlers[i := handlers[i].(followUps := handlers[i].followUps[1..])];
      if store != null {
        var a := store.AssignOrQueue(request);
        running := running + if a.Some? then [a.value] else [];
        AssignOrQueueKeepsWorkers(old(store.View()), request);
      }
    }

    method TryFinalizeFailing(expired: bool)
      requires Valid()
      modifies Footprint()
      ensures Valid() && Footprint() <= old(Footprint()) && handlers == old(handlers)
      ensures View() == FinishFailing(setup, old(View()), expired)
    {
      if !proof.status.Failing? {
        return;
      }
      var drained := true;
      if store != null {
        drained := store.IsFullyDrained();
      }
      if drained || expired {
        proof.TransitionFailingToFailed();
        store := null;
      }
    }

    method CancelProof()
      requires Valid()
      modifies Footprint()
      ensures Valid() && View() == Do(setup, old(View()), Event.CancelProof)
    {
      hide ReadyForFinalization;
      proof.Cancel();
      store := null;
    }

    /** `proof_result`. */
    method ProofResult(worker: nat, r: ProofResult, saved: bool, expired: bool)
      requires Valid()
      modifies Footprint()
      ensures Valid() && View() == HandleResult(setup, old(View()), worker, r, saved, expired)
      ensures RanToEnd(setup, old(View()), View(), worker, r, expired)
    {
      hide HandleEnvelope, FinishFailing, AccountPhase, EnqueueOne, RanToEnd;
      CallRunsToEnd(setup, View(), worker, r, saved, expired);
      ghost var i := |handlers|;
      ghost var before := View();
      var outcome := Receive(worker, r);
      match outcome {
        case HandlerError(_) =>
        case Late(_, status) =>
          if status.Failing? {
            TryFinalizeFailing(expired);
          }
        case Processed(requests, isSealed) =>
          assert handlers == before.handlers + [Handler(worker, r, isSealed, false, requests)];
          Account(worker, r, isSealed, saved, i);
          assert handlers[i].followUps == requests by { AccountKeepsFollowUps(setup, Manager.Receive(setup, before, worker, r), i, saved); }
          TryFinalizeFailing(expired);
          EnqueueFollowUps(requests, i);
      }
    }

    method EnqueueFollowUps(requests: seq<Request>, ghost i: nat)
      requires Valid() && i < |handlers| && handlers[i].followUps == requests
      modifies Footprint()
      ensures Valid() && Footprint() == old(Footprint())
      ensures View() == EnqueueAll(old(View()), i)
    {
      hide EnqueueOne;
      for k := 0 to |requests|
        invariant Valid() && Footprint() == old(Footprint()) && i < |handlers| && handlers[i].followUps == requests[k..]
        invariant EnqueueAll(View(), i) == EnqueueAll(old(View()), i)
      {
        EnqueueTakesHead(View(), i);
        Enqueue(requests[k], i);
      }
    }
  }
}
