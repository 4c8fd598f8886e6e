/** The driver on its own, for any state whose stored proofs are the plan's: what it asks for while the
  * segment count is not known though leaves and internal proofs arrive, and what the tail trigger
  * makes up for once it is. In composed runs the scheduler keeps the count ahead of both. */
module DriverAlone {
  import opened Arithmetic
  import opened Protocol
  import opened Recursion
  import opened TreePlan
  import opened ProofDriver
  import opened DriverRefinement

  /** The last group of an internal layer, if it is incomplete. */
  ghost function TailNode(p: Plan, layer: nat): Node
    requires p.Valid()
  {
    Node(layer + 2, p.Width(layer + 1) / p.internalArity)
  }

  /** Incomplete, with all of its children there, and not there itself. */
  ghost predicate TailDue(c: Config, p: Plan, t: State, layer: nat)
    requires p.Valid()
  {
    p.Width(layer + 1) % p.internalArity > 0 && Ready(c, p, t, TailNode(p, layer)) && !Stored(c, p, t, TailNode(p, layer))
  }

  lemma LayerInTree(p: Plan, layer: nat)
    requires p.Valid() && layer < NumInternalLayers(p.Width(1), p.internalArity)
    ensures layer + 2 <= p.Top()
    ensures layer > 0 ==> p.Width(1) >= 2
  {
  }

  lemma TailCount(c: Config, p: Plan, layer: nat)
    requires Fits(c, p) && layer < NumInternalLayers(p.Width(1), p.internalArity)
    ensures ChildCount(c, p.segments, layer) == p.Width(layer + 1)
  {
    LayerInTree(p, layer);
    assert p.Width(1) == CeilDiv(p.segments, c.leafArity);
    if layer > 0 {
      InternalLayerWidth(p, layer - 1);
    }
    hide CeilDiv, ProofsAtLayer, NumInternalLayers;
  }

  /** An incomplete last group is a node of the plan, and its children are the last ones of their level. */
  lemma TailRange(p: Plan, layer: nat)
    requires p.Valid() && p.Width(layer + 1) % p.internalArity > 0
    ensures var q, count := TailNode(p, layer), p.Width(layer + 1);
            && q.idx < p.Width(layer + 2) && p.Hi(layer + 2, q.idx) == count
            && p.Lo(layer + 2, q.idx) == count - count % p.internalArity == q.idx * p.internalArity
  {
    LastGroup(p.Width(layer + 1), p.internalArity);
    WidthAbove(p, layer);
    hide CeilDiv, Plan.Width;
  }

  lemma WidthAbove(p: Plan, layer: nat)
    requires p.Valid()
    ensures p.Width(layer + 2) == CeilDiv(p.Width(layer + 1), p.internalArity)
  {
    hide CeilDiv;
  }

  lemma LastGroup(count: nat, a: nat)
    requires a > 0 && count % a > 0
    ensures count / a < CeilDiv(count, a) && (count / a) * a == count - count % a
    ensures count <= (count / a + 1) * a
  {
    CeilDivBelow(count, a, count / a);
    hide CeilDiv;
    assert count == (count / a) * a + count % a;
    assert (count / a + 1) * a == (count / a) * a + a;
  }

  lemma TailChildrenReady(c: Config, p: Plan, t: State, layer: nat)
    requires Fits(c, p) && t.numSegments.Some? && layer + 2 <= p.Top() && TailNode(p, layer).idx < p.Width(layer + 2)
    ensures var q := TailNode(p, layer);
            HasTailChildren(c, t, layer, p.Lo(q.level, q.idx), p.Hi(q.level, q.idx)) <==> Ready(c, p, t, q)
  {
    var q := TailNode(p, layer);
    if layer > 0 {
      InternalGroupReady(c, p, t, q);
    } else if Ready(c, p, t, q) {
      forall i: nat {:trigger LeafKey(c, i)} | p.Lo(2, q.idx) <= i < p.Hi(2, q.idx) ensures LeafKey(c, i) in t.leaves {
        ChildStored(c, p, t, q, i);
      }
    }
  }

  lemma TailStart(c: Config, p: Plan, layer: nat, lo: nat)
    requires Fits(c, p) && lo == TailNode(p, layer).idx * p.internalArity
    ensures lo * Pow(c.internalArity, layer) * c.leafArity == p.SegmentStart(TailNode(p, layer))
  {
    var idx, a, s := TailNode(p, layer).idx, c.internalArity, Pow(c.internalArity, layer);
    SpanClosedForm(p, layer);
    MulAssociative(idx, a, s);
    MulAssociative(idx, a * s, c.leafArity);
    hide Plan.Width;
  }

  /** The children of a complete-enough last group, as the trigger collects them. */
  lemma TailCollects(c: Config, p: Plan, t: State, layer: nat)
    requires Fits(c, p) && LeavesOk(c, p, t) && InternalsOk(c, p, t) && layer + 2 <= p.Top()
    requires TailNode(p, layer).idx < p.Width(layer + 2)
    requires var q := TailNode(p, layer);
             p.Lo(q.level, q.idx) < p.Hi(q.level, q.idx) && HasTailChildren(c, t, layer, p.Lo(q.level, q.idx), p.Hi(q.level, q.idx))
    ensures var q := TailNode(p, layer);
            && TailChildren(c, t, layer, p.Lo(q.level, q.idx), p.Hi(q.level, q.idx)) == p.Children(q)
            && TailEnd(c, t, layer, p.Lo(q.level, q.idx), p.Hi(q.level, q.idx)) == p.SegmentEnd(q)
  {
    var q := TailNode(p, layer);
    if layer == 0 {
      LeafChildren(c, p, t, q);
    } else {
      InternalChildren(c, p, t, q);
      ChildrenTile(p, q);
      var last := p.Hi(q.level, q.idx) - 1;
      assert InternalKey(layer - 1, last) in t.internals;
      assert IsPieceOf(p, t.internals[InternalKey(layer - 1, last)], Node(layer + 1, last));
    }
  }

  /** Layer by layer: the trigger asks for the last group, and so for exactly its node of the plan, if
    * and only if that group is incomplete, its children are there and it is not. */
  lemma TailProofRefines(c: Config, p: Plan, t: State, layer: nat)
    requires Fits(c, p) && LeavesOk(c, p, t) && InternalsOk(c, p, t) && t.numSegments == Some(p.segments)
    requires layer < NumInternalLayers(p.Width(1), p.internalArity)
    ensures var f := TailProof(c, t, layer);
            if TailDue(c, p, t, layer) then
              |f| == 1 && AsksFor(c, p, f[0], TailNode(p, layer)) && (f[0].isFinalProof ==> f[0].depth0Merkle == t.depth0Merkle)
            else f == []
  {
    hide Plan.Lo, Plan.Hi, Plan.Width, Plan.SegmentStart, Plan.SegmentEnd, Pow, ChildCount, NumInternalLayers, Ready;
    hide TailChildren, TailEnd, HasTailChildren, DeferralTailFor, CeilDiv;
    var q, count := TailNode(p, layer), p.Width(layer + 1);
    LayerInTree(p, layer);
    TailCount(c, p, layer);
    if count % p.internalArity > 0 {
      TailRange(p, layer);
      TailChildrenReady(c, p, t, layer);
      if TailDue(c, p, t, layer) {
        ChildRange(p, q);
        TailStart(c, p, layer, p.Lo(q.level, q.idx));
        TailCollects(c, p, t, layer);
        TailMatchesPlan(c, p, t);
      }
    }
  }

  /** Over all layers: each due group is asked for once, from the lowest layer up, and nothing else. */
  ghost function DueLayers(c: Config, p: Plan, t: State, layers: nat): seq<nat>
    requires p.Valid()
  {
    if layers == 0 then [] else DueLayers(c, p, t, layers - 1) + if TailDue(c, p, t, layers - 1) then [layers - 1] else []
  }

  lemma {:induction false} TailProofsRefine(c: Config, p: Plan, t: State, layers: nat)
    requires Fits(c, p) && LeavesOk(c, p, t) && InternalsOk(c, p, t) && t.numSegments == Some(p.segments)
    requires layers <= NumInternalLayers(p.Width(1), p.internalArity)
    ensures var f, due := TailProofs(c, t, layers), DueLayers(c, p, t, layers);
            |f| == |due| && forall i :: 0 <= i < |f| ==> due[i] < layers && AsksFor(c, p, f[i], TailNode(p, due[i]))
  {
    hide TailDue, TailProof, AsksFor, LeavesOk, InternalsOk, NumInternalLayers;
    if layers > 0 {
      TailProofsRefine(c, p, t, layers - 1);
      TailProofRefines(c, p, t, layers - 1);
    }
  }

  lemma TriggerRefines(c: Config, p: Plan, t: State)
    requires Fits(c, p) && LeavesOk(c, p, t) && InternalsOk(c, p, t) && t.numSegments == Some(p.segments)
    ensures var f, due := TriggerTailProofs(c, t), DueLayers(c, p, t, NumInternalLayers(p.Width(1), p.internalArity));
            |f| == |due| && forall i :: 0 <= i < |f| ==> AsksFor(c, p, f[i], TailNode(p, due[i]))
  {
    assert p.Width(1) == CeilDiv(p.segments, c.leafArity);
    TailProofsRefine(c, p, t, NumInternalLayers(p.Width(1), p.internalArity));
    hide TailProofs, AsksFor, LeavesOk, InternalsOk, NumInternalLayers;
  }

  // ---- before the count ----

  /** Without the count the driver looks for a full group. */
  ghost predicate FullGroupIn(c: Config, p: Plan, t: State, q: Node)
    requires p.Valid() && q.level >= 1
  {
    (q.idx + 1) * p.Arity(q.level) <= p.Width(q.level - 1) && ChildrenStored(c, p, t, q)
  }

  lemma GroupBounds(p: Plan, n: Node)
    requires p.Valid() && n.level >= 1 && n.idx < p.Width(n.level)
    ensures var q, a := p.Parent(n), p.internalArity;
            && q == Node(n.level + 1, n.idx / a) && q.idx < p.Width(q.level)
            && p.Lo(q.level, q.idx) == q.idx * a < p.Hi(q.level, q.idx) <= p.Width(n.level)
            && q.idx * a + a == (q.idx + 1) * a
            && (p.Hi(q.level, q.idx) == q.idx * a + a <==> (q.idx + 1) * a <= p.Width(n.level))
  {
    ParentInRange(p, n);
    ChildRange(p, p.Parent(n));
    hide Plan.Width;
  }

  /** A leaf asks for its layer-0 group if and only if that group is full and complete. */
  lemma UncountedLeafAsks(c: Config, p: Plan, t: State, n: Node)
    requires Fits(c, p) && LeavesOk(c, p, t) && t.numSegments.None? && n.level == 1 && InTree(c, p, n)
    ensures var f := LeafFollowUps(c, t, p.SegmentStart(n));
            if FullGroupIn(c, p, t, p.Parent(n)) then |f| == 1 && AsksFor(c, p, f[0], p.Parent(n)) else f == []
  {
    LeafKeyFacts(c, p, n.idx);
    GroupBounds(p, n);
    var q := p.Parent(n);
    FullLeafGroup(c, p, t, q);
    if FullGroupIn(c, p, t, q) {
      LeafChildren(c, p, t, q);
    }
    hide Plan.Lo, Plan.Hi, Plan.Width, Plan.SegmentStart, Plan.SegmentEnd, Plan.Parent, HasLeaves, LeafProofs, FullGroupIn, CeilDiv, Plan.Proof;
  }

  lemma FullLeafGroup(c: Config, p: Plan, t: State, q: Node)
    requires Fits(c, p) && LeavesOk(c, p, t) && q.level == 2
    requires p.Lo(2, q.idx) == q.idx * p.internalArity && q.idx * p.internalArity + p.internalArity == (q.idx + 1) * p.internalArity
    requires p.Hi(2, q.idx) == q.idx * p.internalArity + p.internalArity <==> (q.idx + 1) * p.internalArity <= p.Width(1)
    ensures HasLeaves(c, t, q.idx * p.internalArity, q.idx * p.internalArity + p.internalArity) <==> FullGroupIn(c, p, t, q)
  {
    hide Plan.Width, Plan.Lo, Plan.Hi;
    var lo, a := q.idx * p.internalArity, p.internalArity;
    if HasLeaves(c, t, lo, lo + a) {
      LeafKeyFacts(c, p, lo + a - 1);
      assert LeafKey(c, lo + a - 1) in t.leaves;
    } else if FullGroupIn(c, p, t, q) {
      forall i: nat {:trigger LeafKey(c, i)} | lo <= i < lo + a ensures LeafKey(c, i) in t.leaves {
        ChildStored(c, p, t, q, i);
      }
    }
  }

  /** An internal proof likewise, and the request has the children and the range of its node; but it is
    * never flagged final, so it is the request of that node if and only if the node is not the final
    * one. */
  lemma UncountedInternalAsks(c: Config, p: Plan, t: State, r: InternalState, n: Node)
    requires Fits(c, p) && InternalsOk(c, p, t) && t.numSegments.None? && ResultFor(c, p, r, n) && InTree(c, p, n) && n.level < p.Top()
    ensures var reply := InternalFollowUps(c, t, r, InternalIdx(r.segmentStart, r.layerIdx, c.leafArity, c.internalArity));
            && reply.Requests?
            && if FullGroupIn(c, p, t, p.Parent(n)) then
                 var f := reply.requests;
                 && |f| == 1 && f[0].InternalRequest? && f[0].childProofs == p.Children(p.Parent(n)) && f[0].layerIdx == n.level - 1
                 && f[0].segmentStart == p.SegmentStart(p.Parent(n)) && f[0].segmentEnd == p.SegmentEnd(p.Parent(n))
                 && (AsksFor(c, p, f[0], p.Parent(n)) <==> n.level + 1 < p.Top())
               else reply.requests == []
  {
    hide Plan.Lo, Plan.Hi, Plan.Width, Plan.SegmentStart, Plan.SegmentEnd, Plan.Proof, Plan.Top;
    hide FullGroupIn, InternalFollowUps, NextInternal, InternalIdx;
    InternalIdxOf(c, p, n);
    GroupBounds(p, n);
    UncountedLooksUp(c, t, r);
    UncountedGroupAsks(c, p, t, p.Parent(n));
  }

  lemma UncountedLooksUp(c: Config, t: State, r: InternalState)
    requires c.Valid() && t.numSegments.None? && r.proof.Some?
    ensures var idx := InternalIdx(r.segmentStart, r.layerIdx, c.leafArity, c.internalArity);
            var lo := (idx / c.internalArity) * c.internalArity;
            InternalFollowUps(c, t, r, idx) == Requests(NextInternal(c, t, r.layerIdx, lo, lo + c.internalArity, false))
  {
    hide InternalIdx, NextInternal;
  }

  lemma UncountedGroupAsks(c: Config, p: Plan, t: State, q: Node)
    requires Fits(c, p) && InternalsOk(c, p, t) && 3 <= q.level <= p.Top() && q.idx < p.Width(q.level)
    requires p.Lo(q.level, q.idx) == q.idx * p.internalArity < p.Hi(q.level, q.idx)
    requires q.idx * p.internalArity + p.internalArity == (q.idx + 1) * p.internalArity
    requires p.Hi(q.level, q.idx) == q.idx * p.internalArity + p.internalArity <==> (q.idx + 1) * p.internalArity <= p.Width(q.level - 1)
    ensures var f := NextInternal(c, t, q.level - 3, q.idx * c.internalArity, q.idx * c.internalArity + c.internalArity, false);
            if FullGroupIn(c, p, t, q) then
              && |f| == 1 && f[0].InternalRequest? && f[0].childProofs == p.Children(q) && f[0].layerIdx == q.level - 2
              && f[0].segmentStart == p.SegmentStart(q) && f[0].segmentEnd == p.SegmentEnd(q)
              && (AsksFor(c, p, f[0], q) <==> q.level < p.Top())
            else f == []
  {
    hide Plan.Lo, Plan.Hi, Plan.Width, Plan.SegmentStart, Plan.SegmentEnd, Plan.Proof, Plan.Children, Plan.Top;
    hide HasInternals, InternalProofs, MinStart, MaxEnd, InternalsOk, ChildrenStored;
    FullInternalGroup(c, p, t, q);
    if FullGroupIn(c, p, t, q) {
      ScannedRange(c, p, t, q, p.Hi(q.level, q.idx));
      ChildrenTile(p, q);
      InternalChildren(c, p, t, q);
    }
  }

  lemma FullInternalGroup(c: Config, p: Plan, t: State, q: Node)
    requires Fits(c, p) && InternalsOk(c, p, t) && 3 <= q.level <= p.Top()
    requires p.Lo(q.level, q.idx) == q.idx * p.internalArity && q.idx * p.internalArity + p.internalArity == (q.idx + 1) * p.internalArity
    requires p.Hi(q.level, q.idx) == q.idx * p.internalArity + p.internalArity <==> (q.idx + 1) * p.internalArity <= p.Width(q.level - 1)
    ensures HasInternals(t, q.level - 3, q.idx * p.internalArity, q.idx * p.internalArity + p.internalArity) <==> FullGroupIn(c, p, t, q)
  {
    hide Plan.Width, Plan.Lo, Plan.Hi;
    var lo, a := q.idx * p.internalArity, p.internalArity;
    if HasInternals(t, q.level - 3, lo, lo + a) {
      assert InternalKey(q.level - 3, lo + a - 1) in t.internals;
    } else if FullGroupIn(c, p, t, q) {
      forall i: nat {:trigger InternalKey(q.level - 3, i)} | lo <= i < lo + a ensures InternalKey(q.level - 3, i) in t.internals {
        ChildStored(c, p, t, q, i);
      }
    }
  }
}
