/** Sealing of a proof's result accumulation, over any stream of operations on the proof
  * state: results of every kind and content, failures, cancellation, finalization, drain. */
module Sealing {
  import opened Protocol
  import opened ProofDriver
  import opened ResultRules
  import opened Scheduler
  import opened Manager

  datatype Operation =
    | Arrive(result: ProofResult)
    | Fail(step: string, reason: string)    // mark_failing, mark_timed_out
    | CancelIt
    | FinalizeIt(persisted: Option<bool>)
    | Drained                               // Failing to Failed

  function Apply(c: Config, s: State, op: Operation): (State, seq<Outcome>)
    requires c.Valid()
  {
    match op
    case Arrive(r) => var (s', o) := HandleEnvelope(c, s, r); (s', [o])
    case Fail(step, reason) => (MarkFailing(c, s, step, reason), [])
    case CancelIt => (Cancel(c, s), [])
    case FinalizeIt(persisted) => (Finalize(c, s, persisted), [])
    case Drained => (FailingToFailed(s), [])
  }

  /** The state after a stream of operations, and how each result in it was classified. */
  function ApplyAll(c: Config, ops: seq<Operation>): (State, seq<Outcome>)
    requires c.Valid()
  {
    if ops == [] then (FRESH, [])
    else
      var (s, before) := ApplyAll(c, ops[..|ops| - 1]);
      var (s', o) := Apply(c, s, ops[|ops| - 1]);
      (s', before + o)
  }

  /** Once sealed: no operation changes the tree, so neither the artifact; no result, failure or
    * cancellation changes the status or the recorded error; a result is late, and the first one
    * alone asks for the notice. Draining turns Failing into Failed for the same reason. */
  lemma SealedStaysPut(c: Config, s: State, op: Operation)
    requires c.Valid() && Sealed(c, s)
    ensures var (s', o) := Apply(c, s, op);
            && SameTree(s, s') && s'.lastError == s.lastError && Sealed(c, s') && FinalArtifact(c, s') == FinalArtifact(c, s)
            && (op.Arrive? ==> o == [Late(!s.lateNoticeEmitted, s.status)] && s' == s.(lateNoticeEmitted := true))
            && (op.Fail? || op.CancelIt? ==> s' == s)
            && (op.Drained? && s.status.Failing? ==> s'.status == Failed(s.status.reason))
            && (op.Drained? && !s.status.Failing? ==> s' == s)
            && (op.FinalizeIt? && !s.status.InProgress? ==> s' == s)
  {
    var s' := Apply(c, s, op).0;
    assert FinalInternal(c, s') == FinalInternal(c, s);
  }

  /** A status other than InProgress lasts, but for Failing becoming Failed with its reason. */
  lemma StatusMovesForward(c: Config, s: State, op: Operation)
    requires c.Valid() && !s.status.InProgress?
    ensures var s' := Apply(c, s, op).0;
            s'.status == s.status || (s.status.Failing? && op.Drained? && s'.status == Failed(s.status.reason))
  {
    hide ReadyForFinalization;
  }

  /** Completed is reached only from InProgress, by finalization, with the artifact present and
    * with saving it, where configured, having succeeded. */
  lemma CompletedOnlyWithArtifact(c: Config, s: State, op: Operation)
    requires c.Valid() && !s.status.Completed? && Apply(c, s, op).0.status.Completed?
    ensures s.status.InProgress? && op.FinalizeIt? && op.persisted != Some(false)
    ensures FinalArtifact(c, s).Some? && FinalArtifact(c, Apply(c, s, op).0) == FinalArtifact(c, s)
  {
    if op.Arrive? {
      ResultsNeverComplete(c, s, op.result);
    }
    hide HandleEnvelope, FinalInternal;
  }

  lemma ResultsNeverComplete(c: Config, s: State, r: ProofResult)
    requires c.Valid()
    ensures HandleEnvelope(c, s, r).0.status.Completed? ==> s.status.Completed?
  {
    hide HandleProofResult, Fails, ReadyForFinalization;
    if !Sealed(c, s) {
      ResultFailsIff(c, s, r);
    }
  }

  ghost predicate Seals(o: Outcome) {
    o.Processed? && o.sealed
  }

  ghost predicate AnyLate(outcomes: seq<Outcome>) {
    exists i :: 0 <= i < |outcomes| && outcomes[i].Late?
  }

  /** In any stream: nothing but late results after one that seals or one that is late; hence at
    * most one seals; and exactly the first late one asks for the notice. */
  ghost predicate SealedOnce(outcomes: seq<Outcome>) {
    && (forall i, j :: 0 <= i < j < |outcomes| && (Seals(outcomes[i]) || outcomes[i].Late?) ==> outcomes[j].Late?)
    && (forall j :: 0 <= j < |outcomes| && outcomes[j].Late? ==> (outcomes[j].shouldLogNotice <==> !AnyLate(outcomes[..j])))
  }

  lemma {:induction false} StreamsSealOnce(c: Config, ops: seq<Operation>)
    requires c.Valid()
    ensures var (s, outcomes) := ApplyAll(c, ops);
            && SealedOnce(outcomes)
            && ((exists i :: 0 <= i < |outcomes| && (Seals(outcomes[i]) || outcomes[i].Late?)) ==> Sealed(c, s))
            && (s.lateNoticeEmitted <==> AnyLate(outcomes))
  {
    if ops != [] {
      var (s, before) := ApplyAll(c, ops[..|ops| - 1]);
      var op := ops[|ops| - 1];
      StreamsSealOnce(c, ops[..|ops| - 1]);
      var (s', o) := Apply(c, s, op);
      if Sealed(c, s) {
        SealedStaysPut(c, s, op);
      } else {
        UnsealedClassifies(c, s, op);
      }
      hide Apply, Sealed;
      if o == [] {
        assert before + o == before;
      } else {
        assert o == [o[0]];
        OneMore(before, o[0]);
      }
    }
  }

  /** Before sealing, a result is never late, is sealing just when it seals the state, and leaves
    * the notice unspent. */
  lemma UnsealedClassifies(c: Config, s: State, op: Operation)
    requires c.Valid() && !Sealed(c, s)
    ensures var (s', o) := Apply(c, s, op);
            && s'.lateNoticeEmitted == s.lateNoticeEmitted
            && (op.Arrive? ==> |o| == 1 && !o[0].Late? && (Seals(o[0]) ==> Sealed(c, s')))
            && (!op.Arrive? ==> o == [])
  {
    hide HandleProofResult, ReadyForFinalization, Fails;
    if op.Arrive? {
      HandlerFailsIff(c, s, op.result);
    }
  }

  lemma OneMore(before: seq<Outcome>, o: Outcome)
    requires SealedOnce(before)
    requires o.Late? ==> (o.shouldLogNotice <==> !AnyLate(before))
    requires (exists i :: 0 <= i < |before| && (Seals(before[i]) || before[i].Late?)) ==> o.Late?
    ensures SealedOnce(before + [o])
    ensures AnyLate(before + [o]) <==> AnyLate(before) || o.Late?
  {
    var all := before + [o];
    if AnyLate(before) {
      var i :| 0 <= i < |before| && before[i].Late?;
      assert all[i].Late?;
    }
    assert all[|before|] == o;
    forall j | 0 <= j < |all| && all[j].Late? ensures all[j].shouldLogNotice <==> !AnyLate(all[..j]) {
      if j < |before| {
        assert all[..j] == before[..j];
      } else {
        assert all[..j] == before;
      }
    }
  }

  // ---- and in the composed manager ----

  ghost predicate OneSealer(c: Config, s: Sys)
    requires c.Valid()
  {
    && (forall i, j :: 0 <= i < j < |s.handlers| ==> !(s.handlers[i].sealed && s.handlers[j].sealed))
    && ((exists i :: 0 <= i < |s.handlers| && s.handlers[i].sealed) ==> Sealed(c, s.tree))
  }

  /** In any run, whatever the results and the interleaving, at most one received result seals. */
  lemma {:induction false} RunsHaveOneSealer(u: Setup, events: seq<Event>)
    requires u.config.Valid() && u.StarkWorkers() > 0
    ensures OneSealer(u.config, Run(u, events))
  {
    if events != [] {
      var s, e := Run(u, events[..|events| - 1]), events[|events| - 1];
      RunsHaveOneSealer(u, events[..|events| - 1]);
      hide Do, Enabled;
      if Enabled(u, s, e) {
        EventKeepsOneSealer(u, s, e);
      }
    }
  }

  lemma ReceiveKeepsOneSealer(u: Setup, s: Sys, worker: nat, r: ProofResult)
    requires u.config.Valid() && SchedOk(s) && OneSealer(u.config, s)
    ensures OneSealer(u.config, Manager.Receive(u, s, worker, r))
  {
    var (t', o) := HandleEnvelope(u.config, s.tree, r);
    if Sealed(u.config, s.tree) {
      SealedStaysPut(u.config, s.tree, Operation.Arrive(r));
    } else {
      UnsealedClassifies(u.config, s.tree, Operation.Arrive(r));
    }
    hide HandleEnvelope, Sealed, WorkerDrained;
  }

  lemma EventKeepsOneSealer(u: Setup, s: Sys, e: Event)
    requires u.config.Valid() && SchedOk(s) && Enabled(u, s, e) && OneSealer(u.config, s)
    ensures OneSealer(u.config, Do(u, s, e))
  {
    hide Manager.Receive, AccountStore, AssignOrQueue, FinalArtifact, FinalInternal, Sender, Sent;
    if Delivers(e) {
      ReceiveKeepsOneSealer(u, Found(u, s, e), Sender(u, s, e), Sent(u, s, e));
    }
  }

  /** What an event does to the proof state. */
  ghost function OperationsOf(u: Setup, s: Sys, e: Event): seq<Operation>
    requires u.config.Valid() && Enabled(u, s, e)
  {
    if Delivers(e) then [Arrive(Sent(u, s, e))]
    else
      match e
      case Account(i, saved) =>
        if s.handlers[i].sealed && !s.tree.status.Failing? then [FinalizeIt(if u.persists then Some(saved) else None)] else []
      case Enqueue(_) => []
      case Abort(step, reason) => [Fail(step, reason)]
      case CancelProof => [CancelIt]
      case DrainFailing(_) => [Drained]
  }

  /** A run as a stream of operations on the proof state, in the order in which they took its lock. */
  ghost function Stream(u: Setup, events: seq<Event>): seq<Operation>
    requires u.config.Valid() && u.StarkWorkers() > 0
  {
    if events == [] then []
    else
      var s, e := Run(u, events[..|events| - 1]), events[|events| - 1];
      Stream(u, events[..|events| - 1]) + if Enabled(u, s, e) then OperationsOf(u, s, e) else []
  }

  /** Which of the processed results sealed, in order. */
  ghost function SealFlags(outcomes: seq<Outcome>): seq<bool> {
    if outcomes == [] then []
    else
      var o := outcomes[|outcomes| - 1];
      SealFlags(outcomes[..|outcomes| - 1]) + if o.Processed? then [o.sealed] else []
  }

  ghost function HandlerFlags(hs: seq<Handler>): seq<bool> {
    seq(|hs|, i requires 0 <= i < |hs| => hs[i].sealed)
  }

  /** The run and its stream agree on the tree, and on which results sealed. */
  ghost predicate Follows(c: Config, s: Sys, ops: seq<Operation>)
    requires c.Valid()
  {
    ApplyAll(c, ops).0 == s.tree && SealFlags(ApplyAll(c, ops).1) == HandlerFlags(s.handlers)
  }

  lemma ApplyOneMore(c: Config, ops: seq<Operation>, op: Operation)
    requires c.Valid()
    ensures var (s, before) := ApplyAll(c, ops);
            var (s', o) := Apply(c, s, op);
            ApplyAll(c, ops + [op]) == (s', before + o)
  {
    assert (ops + [op])[..|ops|] == ops;
  }

  lemma FlagsOneMore(outcomes: seq<Outcome>, o: Outcome)
    ensures SealFlags(outcomes + [o]) == SealFlags(outcomes) + if o.Processed? then [o.sealed] else []
  {
    assert (outcomes + [o])[..|outcomes|] == outcomes;
  }

  lemma ArrivalFollows(u: Setup, s: Sys, worker: nat, r: ProofResult, ops: seq<Operation>)
    requires u.config.Valid() && SchedOk(s) && Follows(u.config, s, ops)
    ensures Follows(u.config, Manager.Receive(u, s, worker, r), ops + [Arrive(r)])
  {
    var o := HandleEnvelope(u.config, s.tree, r).1;
    ApplyOneMore(u.config, ops, Arrive(r));
    FlagsOneMore(ApplyAll(u.config, ops).1, o);
    hide HandleEnvelope, ApplyAll, SealFlags, WorkerDrained;
    var s' := Manager.Receive(u, s, worker, r);
    if o.Processed? {
      assert HandlerFlags(s'.handlers) == HandlerFlags(s.handlers) + [o.sealed];
    } else {
      assert SealFlags(ApplyAll(u.config, ops).1) + [] == SealFlags(ApplyAll(u.config, ops).1);
    }
  }

  lemma EventFollows(u: Setup, s: Sys, e: Event, ops: seq<Operation>)
    requires u.config.Valid() && SchedOk(s) && Enabled(u, s, e) && Follows(u.config, s, ops)
    ensures Follows(u.config, Do(u, s, e), ops + OperationsOf(u, s, e))
  {
    hide Manager.Receive, AccountStore, AssignOrQueue, FinalArtifact, ReadyForFinalization, ApplyAll, SealFlags, Sender, Sent;
    if Delivers(e) {
      ArrivalFollows(u, Found(u, s, e), Sender(u, s, e), Sent(u, s, e), ops);
    } else {
      assert HandlerFlags(Do(u, s, e).handlers) == HandlerFlags(s.handlers);
      var more := OperationsOf(u, s, e);
      if more == [] {
        assert ops + more == ops;
      } else {
        assert more == [more[0]];
        ApplyOneMore(u.config, ops, more[0]);
        assert ApplyAll(u.config, ops).1 + [] == ApplyAll(u.config, ops).1;
      }
    }
  }

  lemma {:induction false} RunFollowsStream(u: Setup, events: seq<Event>)
    requires u.config.Valid() && u.StarkWorkers() > 0
    ensures Follows(u.config, Run(u, events), Stream(u, events))
  {
    hide Do, Enabled, OperationsOf, Apply;
    if events != [] {
      var s, e := Run(u, events[..|events| - 1]), events[|events| - 1];
      RunFollowsStream(u, events[..|events| - 1]);
      if Enabled(u, s, e) {
        hide Follows;
        EventFollows(u, s, e, Stream(u, events[..|events| - 1]));
      } else {
        assert Stream(u, events[..|events| - 1]) + [] == Stream(u, events[..|events| - 1]);
      }
    }
  }

  /** So in any run, whatever the interleaving: at most one result seals, every later one is late, and
    * exactly the first late one asks for the notice. The run's tree and the sealing flags of its
    * handlers are those of the stream. */
  lemma RunsSealOnce(u: Setup, events: seq<Event>)
    requires u.config.Valid() && u.StarkWorkers() > 0
    ensures var (t, outcomes) := ApplyAll(u.config, Stream(u, events));
            && SealedOnce(outcomes) && t == Run(u, events).tree && SealFlags(outcomes) == HandlerFlags(Run(u, events).handlers)
  {
    RunFollowsStream(u, events);
    StreamsSealOnce(u.config, Stream(u, events));
    hide Run, ApplyAll, SealedOnce, SealFlags;
  }
}
