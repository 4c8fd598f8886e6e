/** How a proof ends other than by completing: a failure, a cancellation, the end of a drain; each
  * with what it records, for one operation and in every run. */
module Endings {
  import opened Protocol
  import opened Recursion
  import opened ProofDriver
  import opened ResultRules
  import opened Sealing
  import opened Scheduler
  import opened Manager
  import opened ManagerInvariant
  import opened InvariantHolds

  // ---- one operation on an unsealed proof ----

  /** Failing an unsealed proof records the step and the reason, keeps the tree and seals the proof. */
  lemma FailureRecorded(c: Config, s: State, step: string, reason: string)
    requires c.Valid() && !Sealed(c, s)
    ensures var s' := MarkFailing(c, s, step, reason);
            s'.status == Failing(reason) && s'.lastError == Some((step, reason)) && SameTree(s, s') && Sealed(c, s')
  {
    hide ReadyForFinalization;
  }

  /** A worker's error fails an unsealed proof in the same way. */
  lemma ErrorRecorded(c: Config, s: State, step: string, error: string)
    requires c.Valid() && !Sealed(c, s)
    ensures var (s', o) := HandleEnvelope(c, s, ErrorResult(step, error));
            && s'.status == Failing("step '" + step + "' failed: " + error) && s'.lastError == Some((step, error))
            && SameTree(s, s') && o == Processed([], true)
  {
    hide ReadyForFinalization;
  }

  /** No other result touches the recorded error. */
  lemma OnlyErrorsRecord(c: Config, s: State, r: ProofResult)
    requires c.Valid() && !r.ErrorResult?
    ensures HandleEnvelope(c, s, r).0.lastError == s.lastError
  {
    hide Sealed, InternalFollowUps, LeafFollowUps, AppFollowUps, FlushPendingLeafBatches, TriggerTailProofs, InternalIdx;
  }

  /** Canceling an unsealed proof keeps its tree and error, and seals it. */
  lemma CancelSeals(c: Config, s: State)
    requires c.Valid() && !Sealed(c, s)
    ensures var s' := Cancel(c, s);
            s'.status == Canceled && s'.lastError == s.lastError && SameTree(s, s') && Sealed(c, s')
  {
    hide ReadyForFinalization;
  }

  // ---- in runs ----

  /** In any run, an abort of an unsealed proof fails it with its reason, and leaves the jobs and the
    * scheduler to the drain. */
  lemma AbortFails(u: Setup, events: seq<Event>, step: string, reason: string)
    requires u.config.Valid() && u.StarkWorkers() > 0 && !Sealed(u.config, Run(u, events).tree)
    ensures var s, s' := Run(u, events), Run(u, events + [Abort(step, reason)]);
            && s'.tree.status == Failing(reason) && s'.tree.lastError == Some((step, reason)) && SameTree(s.tree, s'.tree)
            && s'.sched == s.sched && s'.running == s.running && s'.handlers == s.handlers
  {
    RunOneMore(u, events, Abort(step, reason));
    FailureRecorded(u.config, Run(u, events).tree, step, reason);
    hide Run, Sealed, SameTree;
  }

  /** In any run, canceling an unsealed proof makes it canceled, and a sealed one stays as it is; either
    * way the scheduler lets go of it. */
  lemma CancelLeaves(u: Setup, events: seq<Event>)
    requires u.config.Valid() && u.StarkWorkers() > 0
    ensures var s, s' := Run(u, events), Run(u, events + [CancelProof]);
            && s'.sched.None? && SameTree(s.tree, s'.tree) && s'.persisted == s.persisted
            && s'.tree.status == if Sealed(u.config, s.tree) then s.tree.status else Canceled
  {
    RunOneMore(u, events, CancelProof);
    hide Run, ReadyForFinalization;
  }

  ghost predicate NoneCounted(d: Sched) {
    forall w :: 0 <= w < |d.workers| ==> d.workers[w].activeCount == 0
  }

  /** In any run, a failing proof ends with the reason it failed with, and only by a drain check that
    * finds the deadline over, the scheduler state gone, or no slot counted on any worker; and such a
    * check does end it. */
  lemma FailedOnlyByDrain(u: Setup, events: seq<Event>, e: Event)
    requires u.config.Valid() && u.StarkWorkers() > 0 && Run(u, events).tree.status.Failing?
    ensures var s, s' := Run(u, events), Run(u, events + [e]);
            var ends := e.DrainFailing? && (e.expired || s.sched.None? || NoneCounted(s.sched.value));
            if ends then s'.tree.status == Failed(s.tree.status.reason) && s'.sched.None?
            else s'.tree.status == s.tree.status
  {
    var s := Run(u, events);
    RunOneMore(u, events, e);
    hide Run, ReadyForFinalization;
    if Enabled(u, s, e) && Delivers(e) {
      ReceiveWhenSealed(u, Found(u, s, e), Sender(u, s, e), Sent(u, s, e));
    }
    hide Receive, Sender, Sent, AccountStore, AssignOrQueue;
  }

  /** Leaving the in-progress status is for good, whatever follows: a failing proof stays so or has
    * failed with its reason, any other status lasts, and nothing more is asked for, stored or saved. */
  lemma {:induction false} EndingsLast(u: Setup, events: seq<Event>, more: seq<Event>)
    requires u.config.Valid() && u.StarkWorkers() > 0 && !Run(u, events).tree.status.InProgress?
    ensures Settled(Run(u, events), Run(u, events + more))
    decreases |more|
  {
    hide Do, Enabled;
    if more == [] {
      assert events + more == events;
    } else {
      var front, e := more[..|more| - 1], more[|more| - 1];
      EndingsLast(u, events, front);
      RunOneMore(u, events + front, e);
      assert events + front + [e] == events + more;
      hide Run;
      if Enabled(u, Run(u, events + front), e) {
        SettledStays(u, Run(u, events + front), e);
      }
    }
  }
}
