/** The per-proof scheduler state as the object that `scheduler.rs` updates in place, with its
  * pending queue in a priority queue object. Each method is proved to do what `Scheduler` says. */
module SchedulerObject {
  import opened Arithmetic
  import opened Protocol
  import opened PriorityQueue
  import opened Scheduler
  import opened SchedulerFacts
  import opened SlotAccounting

  class EdgeProofState {
    var workers: seq<Worker>
    const pending: PriorityWorkQueue
    var numSegments: Option<nat>
    const numWorkers: nat
    var assignedLeaves: nat
    const leafPackThreshold: nat
    const maxLeafProvers: nat

    ghost predicate Valid()
      reads this, pending
    {
      pending.Valid()
    }

    ghost function View(): Sched
      reads this, pending
    {
      Sched(workers, pending.Contents(), numSegments, numWorkers, assignedLeaves, leafPackThreshold, maxLeafProvers)
    }

    /** `init_proof`: STARK workers start with their marker, a dedicated EVM worker idle. */
    constructor (ready: seq<(nat, Role)>, leafPackThreshold: nat, maxLeafProvers: nat)
      ensures Valid() && fresh(pending)
      ensures View() == InitProof(ready, leafPackThreshold, maxLeafProvers)
    {
      var queue := new PriorityWorkQueue();
      var states, stark := [], 0;
      for i := 0 to |ready|
        invariant states == InitProof(ready, leafPackThreshold, maxLeafProvers).workers[..i]
        invariant stark == StarkCount(ready[..i])
      {
        assert ready[..i + 1][..i] == ready[..i];
        states := states + [InitWorker(ready[i].0, ready[i].1)];
        stark := stark + if ready[i].1.RunsStarkProving() then 1 else 0;
      }
      assert ready[..|ready|] == ready;
      workers, numSegments, assignedLeaves := states, None, 0;
      pending, numWorkers := queue, stark;
      this.leafPackThreshold, this.maxLeafProvers := leafPackThreshold, maxLeafProvers;
    }

    method FindWorkerFor(step: Step) returns (idx: Option<nat>)
      requires Valid()
      ensures idx == FindWorker(View(), step)
      ensures idx.Some? ==> idx.value < |workers|
    {
      if step.LeafProve? {
        idx := FindBestWorkerForLeaf(workers, assignedLeaves, leafPackThreshold, maxLeafProvers);
        return;
      }
      for i := 0 to |workers|
        invariant forall j :: 0 <= j < i ==> !CanAcceptWork(workers[j], step, maxLeafProvers)
      {
        if CanAcceptWork(workers[i], step, maxLeafProvers) {
          FirstIs(workers, (w: Worker) => CanAcceptWork(w, step, maxLeafProvers), i);
          return Some(i);
        }
      }
      idx := None;
    }

    /** The common tail of both dispatch paths. */
    method Hold(i: nat, r: Request) returns (a: Assigned)
      requires Valid() && i < |workers|
      modifies this
      ensures Valid() && View() == Assign(old(View()), i, r) && a == Assigned(old(workers[i].id), r)
    {
      var w := workers[i];
      workers := workers[i := w.(activeCount := w.activeCount + 1, active := w.active + [Slot(r)])];
      if r.LeafRequest? {
        assignedLeaves := assignedLeaves + 1;
      }
      a := Assigned(w.id, r);
    }

    method AssignOrQueue(r: Request) returns (a: Option<Assigned>)
      requires Valid()
      modifies this, pending
      ensures Valid() && (View(), a) == Scheduler.AssignOrQueue(old(View()), r)
      ensures WorkersOk(old(View())) ==>
                && (a.Some? <==> exists w :: 0 <= w < |old(workers)| && CanTake(old(View()), w, r))
                && (a.Some? ==> a.value.request == r && a.value.workerId < |workers| && CanTake(old(View()), a.value.workerId, r))
    {
      hide CanTake, FindWorker, WorkersOk;
      if WorkersOk(View()) {
        AnswerIsRight(View(), r);
      }
      var idx := FindWorkerFor(r.Step());
      if idx.Some? {
        var held := Hold(idx.value, r);
        return Some(held);
      }
      pending.Push(r);
      a := None;
    }

    method TryDequeueWork() returns (a: Option<Assigned>)
      requires Valid()
      modifies this, pending
      ensures Valid() && (View(), a) == TryDequeue(old(View()))
      ensures a.Some? ==> |pending.Contents()| < |old(pending.Contents())|
    {
      var item := pending.Pop();
      if item.None? {
        return None;
      }
      var idx := FindWorkerFor(item.value.Step());
      if idx.Some? {
        var held := Hold(idx.value, item.value);
        return Some(held);
      }
      pending.Requeue(item.value);
      a := None;
    }

    method DrainPending() returns (work: seq<Assigned>)
      requires Valid()
      modifies this, pending
      ensures Valid() && (View(), work) == Scheduler.DrainPending(old(View()))
      ensures pending.Contents() == [] || FindWorker(View(), pending.Contents()[0].Step()).None?
    {
      hide TryDequeue, Scheduler.DrainPending, FindWorker, Sorted;
      work := [];
      pending.ContentsSorted();
      ghost var start := View();
      DrainStopsAtHead(start);
      assert [] + Scheduler.DrainPending(View()).1 == Scheduler.DrainPending(View()).1;
      while true
        invariant Valid()
        invariant Scheduler.DrainPending(start) == (Scheduler.DrainPending(View()).0, work + Scheduler.DrainPending(View()).1)
        decreases |pending.Contents()|
      {
        DrainUnfolds(View());
        var a := TryDequeueWork();
        if a.None? {
          assert work + [] == work;
          return;
        }
        assert work + [a.value] + Scheduler.DrainPending(View()).1 == work + ([a.value] + Scheduler.DrainPending(View()).1);
        work := work + [a.value];
      }
    }

    method FindIndex(id: nat) returns (idx: Option<nat>)
      ensures idx == FindId(workers, id)
      ensures idx.Some? ==> idx.value < |workers|
    {
      for i := 0 to |workers|
        invariant forall j :: 0 <= j < i ==> workers[j].id != id
      {
        if workers[i].id == id {
          FirstIs(workers, (w: Worker) => w.id == id, i);
          return Some(i);
        }
      }
      idx := None;
    }

    method ApplyCompletion(id: nat, r: ProofResult) returns (registered: bool, freed: bool)
      requires Valid() && numWorkers > 0
      modifies this
      ensures Valid()
      ensures match Scheduler.ApplyCompletion(old(View()), id, r)
              case Unregistered => !registered && View() == old(View())
              case Applied(s, f) => registered && freed == f && View() == s
    {
      var idx := FindIndex(id);
      if idx.None? {
        return false, false;
      }
      var w := workers[idx.value];
      match r {
        case AppResult(app) =>
          w := w.(completed := w.completed + {app.segmentIdx});
          freed := CompletedAllSegments(w.id, w.completed, numWorkers, numSegments);
          if freed {
            w := ReleaseMarker(w);
          }
        case ExecuteE2Result(_, _) => freed := false;
        case ErrorResult(_, _) =>
          if w.active != [] {
            w := w.(activeCount := Max(w.activeCount - 1, 0), active := w.active[1..]);
          }
          freed := true;
        case _ =>
          var step := if r.LeafResult? then LeafProve else if r.InternalResult? then InternalProve else EvmProve;
          var active := RemoveStep(w.active, step);
          w := w.(activeCount := Max(w.activeCount - 1, 0), active := active);
          freed := true;
      }
      workers := workers[idx.value := w];
      registered := true;
    }

    method CompleteWork(id: nat, r: ProofResult) returns (a: Option<Assigned>)
      requires Valid() && numWorkers > 0
      modifies this, pending
      ensures Valid() && (View(), a) == Scheduler.CompleteWork(old(View()), id, r)
    {
      hide Scheduler.ApplyCompletion, TryDequeue;
      var registered, freed := ApplyCompletion(id, r);
      a := None;
      if registered && freed {
        a := TryDequeueWork();
      }
    }

    method WorkerDrained(id: nat, r: ProofResult)
      requires Valid() && numWorkers > 0
      modifies this
      ensures Valid() && View() == Scheduler.WorkerDrained(old(View()), id, r)
      ensures WorkersOk(old(View())) && id < |workers| && SlotOf(r).Some? && SlotOf(r).value in old(workers)[id].active ==>
                multiset(workers[id].active) == multiset(old(workers)[id].active) - multiset{SlotOf(r).value}
    {
      hide Scheduler.ApplyCompletion, WorkersOk, SlotOf;
      ghost var before := View();
      DrainedOnlyFrees(before, id, r);
      if WorkersOk(before) && id < |workers| && SlotOf(r).Some? && SlotOf(r).value in workers[id].active {
        DrainedFreesSlot(before, id, r);
      }
      var registered, freed := ApplyCompletion(id, r);
    }

    method SetNumSegments(n: nat) returns (work: seq<Assigned>)
      requires Valid() && numWorkers > 0
      modifies this, pending
      ensures Valid() && (View(), work) == Scheduler.SetNumSegments(old(View()), n)
    {
      var freed := ReleaseFinished(n);
      work := [];
      if freed {
        work := DrainPending();
      }
    }

    /** The loop of `set_num_segments`: release every busy worker that has nothing left to send. */
    method ReleaseFinished(n: nat) returns (freed: bool)
      requires Valid() && numWorkers > 0
      modifies this
      ensures Valid() && View() == old(View()).(numSegments := Some(n), workers := ReleaseAllDone(old(workers), n, numWorkers))
      ensures freed == SomeReleased(old(workers), n, numWorkers)
    {
      numSegments := Some(n);
      freed := false;
      for i := 0 to |workers|
        invariant |workers| == |old(workers)| && Valid() && pending.Contents() == old(pending.Contents())
        invariant numSegments == Some(n) && assignedLeaves == old(assignedLeaves)
        invariant forall j :: 0 <= j < i ==> workers[j] == ReleaseAllDone(old(workers), n, numWorkers)[j]
        invariant forall j :: i <= j < |workers| ==> workers[j] == old(workers)[j]
        invariant freed <==> exists j :: 0 <= j < i && ReleasedByCount(old(workers)[j], n, numWorkers)
      {
        var w := workers[i];
        if w.activeCount > 0 {
          var expected := ExpectedSegments(w.id, n, numWorkers);
          if expected == 0 || CompletedAllSegments(w.id, w.completed, numWorkers, Some(n)) {
            workers := workers[i := ReleaseMarker(w)];
            freed := true;
          }
        }
      }
      assert workers == ReleaseAllDone(old(workers), n, numWorkers);
    }

    method ReleaseWorker(id: nat)
      requires Valid()
      modifies this
      ensures Valid() && View() == Scheduler.ReleaseWorker(old(View()), id)
    {
      var idx := FindIndex(id);
      if idx.Some? {
        workers := workers[idx.value := workers[idx.value].(activeCount := 0, active := [])];
      }
    }

    method IsFullyDrained() returns (drained: bool)
      requires Valid()
      ensures drained <==> Scheduler.IsFullyDrained(View())
    {
      for i := 0 to |workers|
        invariant forall j :: 0 <= j < i ==> workers[j].activeCount == 0
      {
        if workers[i].activeCount != 0 {
          return false;
        }
      }
      drained := true;
    }
  }

  lemma FirstIs(workers: seq<Worker>, p: Worker -> bool, i: nat)
    requires i < |workers| && p(workers[i]) && forall j :: 0 <= j < i ==> !p(workers[j])
    ensures FirstWorker(workers, p) == Some(i)
  {
    var r := FirstWorker(workers, p);
    assert r.Some?;
  }

  /** Remove the first proof of the given step. */
  method RemoveStep(active: seq<ActiveProof>, step: Step) returns (rest: seq<ActiveProof>)
    ensures rest == RemoveFirst(active, step)
  {
    for i := 0 to |active|
      invariant forall j :: 0 <= j < i ==> active[j].step != step
    {
      if active[i].step == step {
        RemovesAt(active, step, i);
        return active[..i] + active[i + 1..];
      }
    }
    RemovesNothing(active, step);
    rest := active;
  }

  lemma {:induction false} RemovesAt(active: seq<ActiveProof>, step: Step, i: nat)
    requires i < |active| && active[i].step == step && forall j :: 0 <= j < i ==> active[j].step != step
    ensures RemoveFirst(active, step) == active[..i] + active[i + 1..]
  {
    if i > 0 {
      RemovesAt(active[1..], step, i - 1);
    }
  }

  lemma {:induction false} RemovesNothing(active: seq<ActiveProof>, step: Step)
    requires forall j :: 0 <= j < |active| ==> active[j].step != step
    ensures RemoveFirst(active, step) == active
  {
    if active != [] {
      RemovesNothing(active[1..], step);
    }
  }
}
