/** What the assumptions on the environment are for. Outside them, three of the manager's
  * guarantees fail; here is exactly when, with an input for each. */
module Assumptions {
  import opened Arithmetic
  import opened Protocol
  import opened Recursion
  import opened TreePlan
  import opened ProofDriver
  import opened DriverRefinement
  import opened Scheduler
  import opened SchedulerFacts

  // ---- each app result once, the count once ----

  ghost predicate CountsSlots(w: Worker) {
    w.activeCount == |w.active|
  }

  lemma {:induction false} WithoutMarkersSame(active: seq<ActiveProof>)
    requires forall x :: x in active ==> SlotOk(x)
    requires MARKER !in active
    ensures WithoutMarkers(active) == active
  {
    if active != [] {
      assert active[0] in active;
      WithoutMarkersSame(active[1..]);
    }
  }

  /** Releasing a marker keeps the count exact just when there is a marker, or nothing at all. */
  lemma ReleaseCountsIff(w: Worker, maxLeafProvers: nat)
    requires WorkerOk(w, maxLeafProvers)
    ensures CountsSlots(ReleaseMarker(w)) <==> MARKER in w.active || w.active == []
  {
    if MARKER in w.active {
      ReleaseMarkerKeeps(w, maxLeafProvers);
    } else {
      WithoutMarkersSame(w.active);
    }
  }

  /** A repeated app result is harmless to a worker's slot count if and only if the worker still
    * owes segments, still holds its marker, or is idle. */
  lemma RepeatedAppHarmlessIff(w: Worker, app: AppState, numWorkers: nat, total: Option<nat>, maxLeafProvers: nat)
    requires WorkerOk(w, maxLeafProvers) && numWorkers > 0 && app.segmentIdx in w.completed
    ensures CountsSlots(CompleteOn(w, AppResult(app), numWorkers, total).0) <==>
              !CompletedAllSegments(w.id, w.completed, numWorkers, total) || MARKER in w.active || w.active == []
  {
    assert w.completed + {app.segmentIdx} == w.completed;
    assert w.(completed := w.completed) == w;
    ReleaseCountsIff(w, maxLeafProvers);
  }

  /** Setting the count keeps every worker's slot count exact if and only if each busy worker that
    * it finds done still holds its marker: true of the first call, not of a second. */
  lemma SettingCountHarmlessIff(s: Sched, n: nat)
    requires WorkersOk(s) && s.numWorkers > 0
    ensures (forall i :: 0 <= i < |s.workers| ==> CountsSlots(ReleaseAllDone(s.workers, n, s.numWorkers)[i])) <==>
            (forall i :: 0 <= i < |s.workers| && ReleasedByCount(s.workers[i], n, s.numWorkers) ==> MARKER in s.workers[i].active)
  {
    var after := ReleaseAllDone(s.workers, n, s.numWorkers);
    forall i | 0 <= i < |s.workers|
      ensures CountsSlots(after[i]) <==> (ReleasedByCount(s.workers[i], n, s.numWorkers) ==> MARKER in s.workers[i].active)
    {
      assert WorkerOk(s.workers[i], s.maxLeafProvers);
      ReleaseCountsIff(s.workers[i], s.maxLeafProvers);
      hide CompletedAllSegments, ExpectedSegments;
    }
  }

  /** A worker of one that has sent its only segment and now runs a leaf. */
  const LEAF_RUNNER: Worker := Worker(0, Full, 1, [ActiveProof(LeafProve, None)], {0})

  lemma RepeatsCanMiscount()
    ensures WorkerOk(LEAF_RUNNER, 1)
    ensures !CountsSlots(CompleteOn(LEAF_RUNNER, AppResult(AppState(0, Some(AppProof(0)), None, None)), 1, Some(1)).0)
    ensures !CountsSlots(ReleaseAllDone([LEAF_RUNNER], 1, 1)[0])
  {
    assert Shard(0, 1, 1) == {0};
    CompletedIffWholeShard(0, {0}, 1, 1);
    RepeatedAppHarmlessIff(LEAF_RUNNER, AppState(0, Some(AppProof(0)), None, None), 1, Some(1), 1);
    ReleaseCountsIff(LEAF_RUNNER, 1);
  }

  // ---- the count before recursion ----

  ghost predicate AsksForLayer(requests: seq<Request>, layer: nat) {
    exists i :: 0 <= i < |requests| && requests[i].InternalRequest? && requests[i].layerIdx == layer
  }

  /** In a one-layer tree, the driver on its own asks for the wrapping proof on the arrival of the
    * layer-0 proof if and only if it knows the segment count by then. */
  lemma WrapAskedIffCountKnown(c: Config, p: Plan, t: State, r: InternalState)
    requires Fits(c, p) && NumInternalLayers(p.Width(1), c.internalArity) == 1
    requires t.internals == map[] && (t.numSegments.Some? ==> t.numSegments.value == p.segments)
    requires r.proof.Some? && r.layerIdx == 0 && r.segmentStart == 0 && r.segmentEnd < p.segments
    ensures var (t', reply) := HandleInternal(c, t, r);
            reply.Requests? && (AsksForLayer(reply.requests, 1) <==> t.numSegments.Some?)
  {
    assert p.Width(1) == CeilDiv(p.segments, c.leafArity);
    assert p.Span(2) >= 1 by { SpanPositive(p, 2); }
    SpanClosedForm(p, 0);
    DivUnique(0, p.Span(2), 0);
    var idx := InternalIdx(0, 0, c.leafArity, c.internalArity);
    assert idx == 0;
    var (t', reply) := HandleInternal(c, t, r);
    if t.numSegments.None? {
      assert InternalKey(0, 1) !in t'.internals;
      assert reply == Requests([]);
    } else {
      assert reply.requests[0].InternalRequest? && reply.requests[0].layerIdx == 1;
    }
  }

  /** And the arrival of the count makes up for it in no state: the tail trigger of a one-layer
    * tree looks at layer 0 only. So such a driver would wait for ever; it is the scheduler that
    * keeps the layer-0 proof from coming first. */
  lemma CountNeverAsksForWrap(c: Config, p: Plan, t: State)
    requires Fits(c, p) && NumInternalLayers(p.Width(1), c.internalArity) == 1
    ensures !AsksForLayer(HandleExecuteE2(c, t, p.segments).1, 1)
  {
    assert p.Width(1) == CeilDiv(p.segments, c.leafArity);
    if t.numSegments.None? {
      var t' := t.(numSegments := Some(p.segments));
      assert TailProofs(c, t', 1) == TailProofs(c, t', 0) + TailProof(c, t', 0);
      hide TailProofs, TailChildren, TailEnd, DeferralTailFor, HasTailChildren;
    }
  }

  // ---- an input: two segments, fan-in two, the count last ----

  const PAIR: Config := Config(Stark, 0, 1, 2, 0)

  const LEFT: Payload := LeafProof([AppProof(0)])

  const RIGHT: Payload := LeafProof([AppProof(1)])

  const ONE_LEAF: State := FRESH.(apps := map[0 := AppProof(0), 1 := AppProof(1)], leaves := map[0 := Piece(0, 0, LEFT)])

  const TWO_LEAVES: State := ONE_LEAF.(leaves := map[0 := Piece(0, 0, LEFT), 1 := Piece(1, 1, RIGHT)])

  const JOINED: State := TWO_LEAVES.(internals := map[(0, 0) := Piece(0, 1, InternalProof(0, [LEFT, RIGHT]))])

  lemma PairNotReady(t: State)
    requires (1, 0) !in t.internals && (t.numSegments.Some? ==> t.numSegments.value == 2)
    ensures !ReadyForFinalization(PAIR, t)
  {
    PairHasOneLayer();
  }

  lemma TwoShareOneParent()
    ensures CeilDiv(2, 1) == 2 && CeilDiv(2, 2) == 1
  {
  }

  lemma PairHasOneLayer()
    ensures CeilDiv(2, 1) == 2 && NumInternalLayers(2, 2) == 1 && PAIR.FinalLayer(2) == 1
  {
    TwoShareOneParent();
    hide CeilDiv;
    assert LayersAbove(2, 2) == 1 + LayersAbove(CeilDiv(2, 2), 2);
  }

  /** So the two lemmas above speak of this input. */
  lemma PairIsCovered()
    ensures Fits(PAIR, Plan(2, 1, 2)) && NumInternalLayers(Plan(2, 1, 2).Width(1), PAIR.internalArity) == 1
    ensures TWO_LEAVES.internals == map[] && TWO_LEAVES.numSegments.None?
  {
    hide CeilDiv, NumInternalLayers;
    PairHasOneLayer();
    assert Plan(2, 1, 2).Width(1) == CeilDiv(2, 1);
  }

  /** The second leaf completes a group, and its layer-0 proof is asked for. */
  lemma PairJoinAsked()
    ensures HandleEnvelope(PAIR, ONE_LEAF, LeafResult(LeafState(1, 1, Some(RIGHT)))) ==
            (TWO_LEAVES, Processed([InternalRequest([LEFT, RIGHT], 0, 0, 1, false, None, None)], false))
  {
    PairNotReady(ONE_LEAF);
    PairNotReady(TWO_LEAVES);
    assert ONE_LEAF.leaves[1 := Piece(1, 1, RIGHT)] == TWO_LEAVES.leaves;
    assert GroupStart(PAIR, 1) == 0 && LeafGroupEnd(PAIR, TWO_LEAVES, 1) == 2;
    assert LeafKey(PAIR, 0) == 0 && LeafKey(PAIR, 1) == 1;
    assert HasLeaves(PAIR, TWO_LEAVES, 0, 2);
    assert LeafProofs(PAIR, TWO_LEAVES, 0, 2) == [LEFT, RIGHT];
  }

  /** Its result asks for nothing, since the count is not known. */
  lemma PairJoinArrives()
    ensures HandleEnvelope(PAIR, TWO_LEAVES, InternalResult(InternalState(0, 0, 1, Some(InternalProof(0, [LEFT, RIGHT])), false, None))) ==
            (JOINED, Processed([], false))
  {
  }

  const COUNTED_LAST: State := JOINED.(numSegments := Some(2))

  lemma PairHasNoTail()
    ensures FlushPendingLeafBatches(PAIR, COUNTED_LAST) == [] && TailProof(PAIR, COUNTED_LAST, 0) == []
  {
    hide CeilDiv, HasApps, HasTailChildren, DeferralTailFor;
    PairHasOneLayer();
    assert 2 % 1 == 0 && 2 % 2 == 0;
    assert ChildCount(PAIR, 2, 0) == 2;
  }

  lemma PairTriggersNothing()
    ensures TriggerTailProofs(PAIR, COUNTED_LAST) == []
  {
    hide TailProof, CeilDiv, NumInternalLayers;
    PairHasOneLayer();
    PairHasNoTail();
    assert TailProofs(PAIR, COUNTED_LAST, 1) == TailProofs(PAIR, COUNTED_LAST, 0) + TailProof(PAIR, COUNTED_LAST, 0);
  }

  /** And the count, last, asks for nothing either: all that was asked for has come back, the proof
    * is in progress, and it is not ready. */
  lemma PairWaitsForEver()
    ensures HandleEnvelope(PAIR, JOINED, ExecuteE2Result(0, 2)) == (COUNTED_LAST, Processed([], false))
    ensures COUNTED_LAST.status.InProgress? && !ReadyForFinalization(PAIR, COUNTED_LAST)
  {
    hide FlushPendingLeafBatches, TriggerTailProofs, ReadyForFinalization;
    PairNotReady(JOINED);
    PairNotReady(COUNTED_LAST);
    PairHasNoTail();
    PairTriggersNothing();
    assert JOINED.numSegments.None? && JOINED.(numSegments := Some(2)) == COUNTED_LAST;
    assert HandleExecuteE2(PAIR, JOINED, 2).1 == FlushPendingLeafBatches(PAIR, COUNTED_LAST) + TriggerTailProofs(PAIR, COUNTED_LAST) == [];
    assert HandleProofResult(PAIR, JOINED, ExecuteE2Result(0, 2)) == (COUNTED_LAST, Requests([]));
  }
}
