/** The driver's five handlers, seen from the plan: each stores one node, and asks for that
  * node's parent exactly when it was the parent's last missing child. */
module DriverRefinement {
  import opened Arithmetic
  import opened Protocol
  import opened Recursion
  import opened TreePlan
  import opened ProofDriver

  ghost function PlanOf(c: Config, segments: nat): Plan {
    Plan(segments, c.leafArity, c.internalArity)
  }

  /** The level of the final artifact. */
  ghost function Last(c: Config, p: Plan): nat
    requires p.Valid()
  {
    p.Top() + if c.proofType.Evm? then 1 else 0
  }

  ghost predicate Fits(c: Config, p: Plan) {
    c.Valid() && p.Valid() && p == PlanOf(c, p.segments)
  }

  ghost predicate InTree(c: Config, p: Plan, n: Node)
    requires p.Valid()
  {
    n.level <= Last(c, p) && n.idx < p.Width(n.level)
  }

  ghost predicate Stored(c: Config, p: Plan, t: State, n: Node)
    requires p.Valid()
  {
    if n.level == 0 then n.idx in t.apps
    else if n.level == 1 then LeafKey(c, n.idx) in t.leaves
    else if n.level <= p.Top() then InternalKey(n.level - 2, n.idx) in t.internals
    else n.level == Last(c, p) && n.idx == 0 && t.evm.Some?
  }

  ghost predicate ChildrenStored(c: Config, p: Plan, t: State, n: Node)
    requires p.Valid() && n.level >= 1
  {
    forall i: nat {:trigger Node(n.level - 1, i)} :: p.Lo(n.level, n.idx) <= i < p.Hi(n.level, n.idx) ==>
      Stored(c, p, t, Node(n.level - 1, i))
  }

  /** The driver has everything it needs to ask for `n`. Before the segment count is known it
    * recognises only full leaf batches. */
  ghost predicate Ready(c: Config, p: Plan, t: State, n: Node)
    requires p.Valid()
  {
    && n.level >= 1 && InTree(c, p, n)
    && ChildrenStored(c, p, t, n)
    && (t.numSegments.None? && n.level == 1 ==> (n.idx + 1) * p.leafArity <= p.segments)
  }

  ghost predicate IsPieceOf(p: Plan, x: Piece, n: Node)
    requires p.Valid()
  {
    x.segmentStart == p.SegmentStart(n) && x.segmentEnd == p.SegmentEnd(n) && x.proof == p.Proof(n)
  }

  ghost predicate AppsOk(p: Plan, t: State)
    requires p.Valid()
  {
    forall i :: i in t.apps ==> i < p.segments && t.apps[i] == AppProof(i)
  }

  ghost predicate LeavesOk(c: Config, p: Plan, t: State)
    requires Fits(c, p)
  {
    forall k :: k in t.leaves ==>
      k / c.leafArity < p.Width(1) && k == LeafKey(c, k / c.leafArity) && IsPieceOf(p, t.leaves[k], Node(1, k / c.leafArity))
  }

  ghost predicate InternalsOk(c: Config, p: Plan, t: State)
    requires Fits(c, p)
  {
    forall k :: k in t.internals ==>
      k.0 + 2 <= p.Top() && k.1 < p.Width(k.0 + 2) && IsPieceOf(p, t.internals[k], Node(k.0 + 2, k.1))
  }

  ghost predicate EvmOk(c: Config, p: Plan, t: State)
    requires Fits(c, p)
  {
    t.evm.Some? ==> c.proofType.Evm? && t.evm.value == p.Proof(Node(p.Top() + 1, 0))
  }

  ghost predicate CountOk(p: Plan, t: State) {
    if t.numSegments.Some? then t.numSegments.value == p.segments else t.leaves == map[] && t.internals == map[] && t.evm.None?
  }

  ghost predicate Closed(c: Config, p: Plan, t: State)
    requires p.Valid()
  {
    forall n: Node :: n.level >= 1 && Stored(c, p, t, n) ==> Ready(c, p, t, n)
  }

  /** Everything stored is what the plan says it should be, and stored bottom-up. */
  ghost predicate TreeOk(c: Config, p: Plan, t: State)
    requires Fits(c, p)
  {
    AppsOk(p, t) && LeavesOk(c, p, t) && InternalsOk(c, p, t) && EvmOk(c, p, t) && CountOk(p, t) && Closed(c, p, t)
  }

  // ---- requests ----

  ghost predicate TailOk(c: Config, p: Plan, r: Request)
    requires Fits(c, p) && r.InternalRequest?
  {
    && (r.deferralTail.Some? <==> r.isFinalProof && c.deferralCircuits > 0)
    && (!r.isFinalProof ==> r.depth0Merkle.None?)
    && (r.deferralTail.Some? ==>
          && r.deferralTail.value.recursiveLayer == p.FinalLayer()
          && r.deferralTail.value.nodeIdx + 1 == InternalNodes(p, p.Top()))
  }

  /** `r` asks for exactly node `n`: its children's proofs in order, its segment range, and the
    * final flag just on the top internal node. */
  ghost predicate AsksFor(c: Config, p: Plan, r: Request, n: Node)
    requires Fits(c, p)
  {
    n.level >= 1 && InTree(c, p, n) &&
    match r
    case LeafRequest(children, start, end) =>
      n.level == 1 && children == p.Children(n) && start == p.SegmentStart(n) && end == p.SegmentEnd(n)
    case InternalRequest(children, layer, start, end, isFinal, _, _) =>
      && n.level == layer + 2 <= p.Top() && children == p.Children(n) && start == p.SegmentStart(n) && end == p.SegmentEnd(n)
      && (isFinal <==> n.level == p.Top()) && TailOk(c, p, r)
    case EvmRequest(inner, _, hasDeferral) =>
      n == Node(p.Top() + 1, 0) && inner == p.Proof(Node(p.Top(), 0)) && (hasDeferral <==> c.deferralCircuits > 0)
  }

  ghost predicate AsksForParent(c: Config, p: Plan, t: State, f: seq<Request>, n: Node)
    requires Fits(c, p)
  {
    if Ready(c, p, t, p.Parent(n)) then |f| == 1 && AsksFor(c, p, f[0], p.Parent(n)) else f == []
  }

  ghost predicate StoresJust(c: Config, p: Plan, t: State, t': State, n: Node)
    requires p.Valid()
  {
    t'.numSegments == t.numSegments && forall m: Node :: Stored(c, p, t', m) <==> Stored(c, p, t, m) || m == n
  }

  lemma ChildStored(c: Config, p: Plan, t: State, q: Node, i: nat)
    requires p.Valid() && q.level >= 1 && ChildrenStored(c, p, t, q) && p.Lo(q.level, q.idx) <= i < p.Hi(q.level, q.idx)
    ensures Stored(c, p, t, Node(q.level - 1, i))
  {
  }

  /** Storing one node can make only its parent ready. */
  lemma ReadyAfterStore(c: Config, p: Plan, t: State, t': State, n: Node, m: Node)
    requires Fits(c, p) && StoresJust(c, p, t, t', n) && !Stored(c, p, t, n) && InTree(c, p, n)
    ensures !Ready(c, p, t, p.Parent(n))
    ensures Ready(c, p, t, m) ==> Ready(c, p, t', m)
    ensures Ready(c, p, t', m) && m != p.Parent(n) ==> Ready(c, p, t, m)
  {
    hide Plan.Lo, Plan.Hi, Plan.Width, Stored;
    ParentInRange(p, n);
    if Ready(c, p, t, p.Parent(n)) {
      ChildStored(c, p, t, p.Parent(n), n.idx);
    }
    if Ready(c, p, t, m) {
      forall i: nat {:trigger Node(m.level - 1, i)} | p.Lo(m.level, m.idx) <= i < p.Hi(m.level, m.idx)
        ensures Stored(c, p, t', Node(m.level - 1, i))
      {
        ChildStored(c, p, t, m, i);
      }
    }
    if Ready(c, p, t', m) && m != p.Parent(n) {
      OtherParentUnchanged(c, p, t, t', n, m);
    }
  }

  lemma OtherParentUnchanged(c: Config, p: Plan, t: State, t': State, n: Node, m: Node)
    requires Fits(c, p) && StoresJust(c, p, t, t', n) && m.level >= 1 && m != p.Parent(n)
    requires ChildrenStored(c, p, t', m)
    ensures ChildrenStored(c, p, t, m)
  {
    hide Plan.Lo, Plan.Hi, Plan.Width;
    forall i: nat {:trigger Node(m.level - 1, i)} | p.Lo(m.level, m.idx) <= i < p.Hi(m.level, m.idx)
      ensures Stored(c, p, t, Node(m.level - 1, i))
    {
      NotTheNewChild(p, n, m, i);
      assert Stored(c, p, t', Node(m.level - 1, i));
    }
  }

  lemma NotTheNewChild(p: Plan, n: Node, m: Node, i: nat)
    requires p.Valid() && m.level >= 1 && m != p.Parent(n) && p.Lo(m.level, m.idx) <= i < p.Hi(m.level, m.idx)
    ensures Node(m.level - 1, i) != n
  {
    ChildParent(p, m, i);
  }

  lemma ClosedAfterStore(c: Config, p: Plan, t: State, t': State, n: Node)
    requires Fits(c, p) && Closed(c, p, t) && StoresJust(c, p, t, t', n) && !Stored(c, p, t, n) && InTree(c, p, n)
    requires n.level >= 1 ==> Ready(c, p, t, n)
    ensures Closed(c, p, t')
  {
    forall m: Node | m.level >= 1 && Stored(c, p, t', m) ensures Ready(c, p, t', m) {
      ReadyAfterStore(c, p, t, t', n, m);
    }
  }

  // ---- app results ----

  lemma BatchIsParent(c: Config, p: Plan, t: State, i: nat)
    requires Fits(c, p) && AppsOk(p, t) && CountOk(p, t) && i < p.segments && i in t.apps
    ensures BatchStart(c, i) == p.Lo(1, i / c.leafArity)
    ensures p.Parent(Node(0, i)) == Node(1, i / c.leafArity)
    ensures HasApps(t, BatchStart(c, i), BatchEnd(c, t, i)) <==> Ready(c, p, t, Node(1, i / c.leafArity))
    ensures HasApps(t, BatchStart(c, i), BatchEnd(c, t, i)) ==> BatchEnd(c, t, i) == p.Hi(1, i / c.leafArity)
    ensures BatchStart(c, i) < BatchEnd(c, t, i)
  {
    var b := Node(1, i / c.leafArity);
    ParentInRange(p, Node(0, i));
    DivBounds(i, c.leafArity);
    assert (b.idx + 1) * c.leafArity == b.idx * c.leafArity + c.leafArity;
    if HasApps(t, BatchStart(c, i), BatchEnd(c, t, i)) {
      assert BatchEnd(c, t, i) - 1 in t.apps;
      assert ChildrenStored(c, p, t, b);
    }
    if Ready(c, p, t, b) {
      forall j | BatchStart(c, i) <= j < BatchEnd(c, t, i) ensures j in t.apps {
        ChildStored(c, p, t, b, j);
      }
    }
  }

  lemma BatchStored(c: Config, p: Plan, t: State, b: Node)
    requires Fits(c, p) && b.level == 1 && ChildrenStored(c, p, t, b)
    ensures HasApps(t, p.Lo(1, b.idx), p.Hi(1, b.idx))
  {
    hide Plan.Lo, Plan.Hi, Plan.Width, Plan.Top, Last, LeafKey, InternalKey, ChildrenStored;
    forall j | p.Lo(1, b.idx) <= j < p.Hi(1, b.idx) ensures j in t.apps {
      ChildStored(c, p, t, b, j);
    }
  }

  lemma LeafRequestForBatch(c: Config, p: Plan, t: State, b: Node)
    requires Fits(c, p) && AppsOk(p, t) && b.level == 1 && Ready(c, p, t, b)
    ensures p.Lo(1, b.idx) < p.Hi(1, b.idx) && HasApps(t, p.Lo(1, b.idx), p.Hi(1, b.idx))
    ensures AsksFor(c, p, LeafRequest(AppProofs(t, p.Lo(1, b.idx), p.Hi(1, b.idx)), p.Lo(1, b.idx), p.Hi(1, b.idx) - 1), b)
  {
    ChildRange(p, b);
    hide Plan.Lo, Plan.Hi, Plan.Width, Plan.Top, Last, Plan.Children, Plan.Span;
    var lo, hi := p.Lo(1, b.idx), p.Hi(1, b.idx);
    BatchStored(c, p, t, b);
    AppChildren(c, p, t, b);
    ChildrenTile(p, b);
    AppRange(p, lo);
    AppRange(p, hi - 1);
  }

  lemma AppRange(p: Plan, i: nat)
    requires p.Valid()
    ensures p.SegmentStart(Node(0, i)) == i && (i < p.segments ==> p.SegmentEnd(Node(0, i)) == i)
  {
    assert p.Span(0) == 1;
  }

  lemma AppChildren(c: Config, p: Plan, t: State, b: Node)
    requires Fits(c, p) && AppsOk(p, t) && b.level == 1 && p.Lo(1, b.idx) < p.Hi(1, b.idx)
    requires HasApps(t, p.Lo(1, b.idx), p.Hi(1, b.idx))
    ensures AppProofs(t, p.Lo(1, b.idx), p.Hi(1, b.idx)) == p.Children(b)
  {
    hide Plan.Lo, Plan.Hi, Plan.Width;
    var lo, hi := p.Lo(1, b.idx), p.Hi(1, b.idx);
    forall j | 0 <= j < hi - lo ensures AppProofs(t, lo, hi)[j] == p.Children(b)[j] {
      assert p.Proof(Node(0, lo + j)) == AppProof(lo + j);
    }
  }

  lemma WidthZero(p: Plan)
    requires p.Valid()
    ensures p.Width(0) == p.segments
  {
  }

  lemma AppStoresJust(c: Config, p: Plan, t: State, t': State, i: nat)
    requires p.Valid() && t'.apps.Keys == t.apps.Keys + {i} && t'.numSegments == t.numSegments
    requires t'.leaves == t.leaves && t'.internals == t.internals && t'.evm == t.evm
    ensures StoresJust(c, p, t, t', Node(0, i))
  {
    hide Plan.Top, LeafKey, InternalKey, Last;
  }

  lemma SameAboveApps(c: Config, p: Plan, t: State, t': State)
    requires Fits(c, p) && LeavesOk(c, p, t) && InternalsOk(c, p, t) && EvmOk(c, p, t)
    requires t'.leaves == t.leaves && t'.internals == t.internals && t'.evm == t.evm
    ensures LeavesOk(c, p, t') && InternalsOk(c, p, t') && EvmOk(c, p, t')
  {
    hide IsPieceOf, LeafKey, Plan.Top, Plan.Width, Plan.Proof;
  }

  lemma AppStores(c: Config, p: Plan, t: State, t': State, i: nat)
    requires Fits(c, p) && TreeOk(c, p, t) && i < p.segments && i !in t.apps
    requires t'.apps == t.apps[i := AppProof(i)] && t'.leaves == t.leaves && t'.internals == t.internals && t'.evm == t.evm
    requires t'.numSegments == t.numSegments
    ensures TreeOk(c, p, t') && StoresJust(c, p, t, t', Node(0, i))
  {
    hide StoresJust, Closed, Stored, Plan.Width, LeavesOk, InternalsOk, EvmOk, Last;
    AppStoresJust(c, p, t, t', i);
    SameAboveApps(c, p, t, t');
    AppInTree(c, p, t, i);
    ClosedAfterStore(c, p, t, t', Node(0, i));
  }

  lemma AppInTree(c: Config, p: Plan, t: State, i: nat)
    requires p.Valid() && i < p.segments
    ensures InTree(c, p, Node(0, i)) && (Stored(c, p, t, Node(0, i)) <==> i in t.apps)
  {
  }

  /** An app result stores its segment and asks for its leaf batch just when that completes it. */
  lemma AppResultRefines(c: Config, p: Plan, t: State, app: AppState)
    requires Fits(c, p) && TreeOk(c, p, t)
    requires app.segmentIdx < p.segments && app.segmentIdx !in t.apps && app.proof == Some(AppProof(app.segmentIdx))
    ensures var (t', f) := HandleApp(c, t, app);
            && TreeOk(c, p, t') && StoresJust(c, p, t, t', Node(0, app.segmentIdx)) && t'.status == t.status
            && AsksForParent(c, p, t', f, Node(0, app.segmentIdx))
  {
    var i := app.segmentIdx;
    var (t', f) := HandleApp(c, t, app);
    AppStores(c, p, t, t', i);
    BatchIsParent(c, p, t', i);
    if Ready(c, p, t', Node(1, i / c.leafArity)) {
      LeafRequestForBatch(c, p, t', Node(1, i / c.leafArity));
    }
  }

  // ---- leaf results ----

  lemma LeafKeyFacts(c: Config, p: Plan, i: nat)
    requires Fits(c, p)
    ensures LeafKey(c, i) / c.leafArity == i
    ensures LeafKey(c, i) == p.SegmentStart(Node(1, i))
  {
    DivUnique(LeafKey(c, i), c.leafArity, i);
    assert p.Span(1) == c.leafArity * p.Span(0);
  }

  lemma LeafStoresJust(c: Config, p: Plan, t: State, t': State, n: Node, x: Piece)
    requires Fits(c, p) && n.level == 1 && t' == t.(leaves := t.leaves[LeafKey(c, n.idx) := x])
    ensures StoresJust(c, p, t, t', n)
  {
    LeafKeyFacts(c, p, n.idx);
    hide LeafKey, Plan.Top, Plan.SegmentStart;
    forall m: Node ensures Stored(c, p, t', m) <==> Stored(c, p, t, m) || m == n {
      LeafKeyFacts(c, p, m.idx);
    }
  }

  lemma LeavesAfter(c: Config, p: Plan, t: State, t': State, n: Node, x: Piece)
    requires Fits(c, p) && LeavesOk(c, p, t) && n.level == 1 && n.idx < p.Width(1) && IsPieceOf(p, x, n)
    requires t'.leaves == t.leaves[LeafKey(c, n.idx) := x]
    ensures LeavesOk(c, p, t')
  {
    hide IsPieceOf, Plan.Width, Plan.SegmentStart, Plan.SegmentEnd, Plan.Proof;
    LeafKeyFacts(c, p, n.idx);
    hide LeafKey;
  }

  lemma SameBesidesLeaves(c: Config, p: Plan, t: State, t': State)
    requires Fits(c, p) && AppsOk(p, t) && InternalsOk(c, p, t) && EvmOk(c, p, t) && CountOk(p, t) && t.numSegments.Some?
    requires t'.apps == t.apps && t'.internals == t.internals && t'.evm == t.evm && t'.numSegments == t.numSegments
    ensures AppsOk(p, t') && InternalsOk(c, p, t') && EvmOk(c, p, t') && CountOk(p, t')
  {
    hide IsPieceOf, Plan.Top, Plan.Width, Plan.Proof;
  }

  lemma LeafStores(c: Config, p: Plan, t: State, t': State, n: Node, x: Piece)
    requires Fits(c, p) && TreeOk(c, p, t) && t.numSegments.Some?
    requires n.level == 1 && Ready(c, p, t, n) && !Stored(c, p, t, n) && IsPieceOf(p, x, n)
    requires t' == t.(leaves := t.leaves[LeafKey(c, n.idx) := x])
    ensures TreeOk(c, p, t') && StoresJust(c, p, t, t', n)
  {
    hide StoresJust, Closed, Plan.Width, LeafKey, IsPieceOf, Ready, Stored, InTree, AppsOk, LeavesOk, InternalsOk, EvmOk, CountOk, Last;
    ReadyInTree(c, p, t, n);
    LeavesAfter(c, p, t, t', n, x);
    SameBesidesLeaves(c, p, t, t');
    LeafStoresJust(c, p, t, t', n, x);
    ClosedAfterStore(c, p, t, t', n);
  }

  lemma ReadyInTree(c: Config, p: Plan, t: State, n: Node)
    requires p.Valid() && Ready(c, p, t, n)
    ensures InTree(c, p, n) && n.level >= 1 && n.idx < p.Width(n.level)
  {
  }

  lemma LeafGroupIsParent(c: Config, p: Plan, t: State, n: Node)
    requires Fits(c, p) && CountOk(p, t) && t.numSegments.Some? && n.level == 1 && InTree(c, p, n)
    ensures GroupStart(c, n.idx) == p.Lo(2, p.Parent(n).idx)
    ensures LeafGroupEnd(c, t, n.idx) == p.Hi(2, p.Parent(n).idx)
    ensures HasLeaves(c, t, GroupStart(c, n.idx), LeafGroupEnd(c, t, n.idx)) <==> Ready(c, p, t, p.Parent(n))
    ensures GroupStart(c, n.idx) < LeafGroupEnd(c, t, n.idx)
    ensures p.Parent(n).level == 2 <= p.Top()
  {
    var q := p.Parent(n);
    ParentInRange(p, n);
    ChildRange(p, q);
    assert (q.idx + 1) * c.internalArity == q.idx * c.internalArity + c.internalArity;
    assert p.Width(1) == CeilDiv(p.segments, c.leafArity);
    if Ready(c, p, t, q) {
      forall i: nat {:trigger LeafKey(c, i)} | GroupStart(c, n.idx) <= i < LeafGroupEnd(c, t, n.idx) ensures LeafKey(c, i) in t.leaves {
        ChildStored(c, p, t, q, i);
      }
    }
  }

  lemma LeafChildren(c: Config, p: Plan, t: State, q: Node)
    requires Fits(c, p) && LeavesOk(c, p, t) && q.level == 2 && InTree(c, p, q)
    requires p.Lo(2, q.idx) < p.Hi(2, q.idx) && HasLeaves(c, t, p.Lo(2, q.idx), p.Hi(2, q.idx))
    ensures LeafProofs(c, t, p.Lo(2, q.idx), p.Hi(2, q.idx)) == p.Children(q)
    ensures LeafKey(c, p.Lo(2, q.idx)) == p.SegmentStart(q)
    ensures t.leaves[LeafKey(c, p.Hi(2, q.idx) - 1)].segmentEnd == p.SegmentEnd(q)
  {
    hide Plan.Lo, Plan.Hi, Plan.SegmentStart, Plan.SegmentEnd;
    var lo, hi := p.Lo(2, q.idx), p.Hi(2, q.idx);
    ChildrenTile(p, q);
    LeafKeyFacts(c, p, lo);
    LeafKeyFacts(c, p, hi - 1);
    forall j | 0 <= j < hi - lo ensures LeafProofs(c, t, lo, hi)[j] == p.Children(q)[j] {
      LeafKeyFacts(c, p, lo + j);
    }
  }

  lemma LeafFollowUpsRefine(c: Config, p: Plan, t: State, n: Node)
    requires Fits(c, p) && LeavesOk(c, p, t) && CountOk(p, t) && t.numSegments.Some? && n.level == 1 && InTree(c, p, n)
    ensures AsksForParent(c, p, t, LeafFollowUps(c, t, p.SegmentStart(n)), n)
  {
    LeafKeyFacts(c, p, n.idx);
    LeafGroupIsParent(c, p, t, n);
    ParentInRange(p, n);
    var q := p.Parent(n);
    hide Plan.Lo, Plan.Hi, Plan.Width, Plan.SegmentStart, Plan.SegmentEnd, Ready, GroupStart, LeafGroupEnd, LeafProofs, Plan.Parent;
    if Ready(c, p, t, q) {
      LeafChildren(c, p, t, q);
    }
  }

  /** A leaf result stores its leaf and asks for its layer-0 group just when that completes it. */
  lemma LeafResultRefines(c: Config, p: Plan, t: State, leaf: LeafState, n: Node)
    requires Fits(c, p) && TreeOk(c, p, t) && t.numSegments.Some?
    requires n.level == 1 && Ready(c, p, t, n) && !Stored(c, p, t, n)
    requires leaf.segmentStart == p.SegmentStart(n) && leaf.segmentEnd == p.SegmentEnd(n) && leaf.proof == Some(p.Proof(n))
    ensures var (t', f) := HandleLeaf(c, t, leaf);
            && TreeOk(c, p, t') && StoresJust(c, p, t, t', n) && t'.status == t.status
            && AsksForParent(c, p, t', f, n)
  {
    NodeHasSegments(p, n);
    LeafKeyFacts(c, p, n.idx);
    assert InTree(c, p, n) && LeafKey(c, n.idx) !in t.leaves;
    hide Plan.Lo, Plan.Hi, Plan.Width, Plan.SegmentStart, Plan.SegmentEnd, Plan.Proof, StoresJust, Ready, Closed, LeafFollowUps, AsksForParent;
    var (t', f) := HandleLeaf(c, t, leaf);
    LeafStores(c, p, t, t', n, Piece(leaf.segmentStart, leaf.segmentEnd, leaf.proof.value));
    LeafFollowUpsRefine(c, p, t', n);
  }

  // ---- internal results ----

  lemma InternalIdxOf(c: Config, p: Plan, n: Node)
    requires Fits(c, p) && n.level >= 2
    ensures InternalIdx(p.SegmentStart(n), n.level - 2, c.leafArity, c.internalArity) == n.idx
  {
    SpanClosedForm(p, n.level - 2);
    MulAssociative(n.idx, Pow(c.internalArity, n.level - 1), c.leafArity);
    SegmentStartRoundTrip(c.leafArity, c.internalArity, n.level - 2, n.idx);
  }

  lemma InternalsAfter(c: Config, p: Plan, t: State, t': State, n: Node, x: Piece)
    requires Fits(c, p) && InternalsOk(c, p, t) && 2 <= n.level <= p.Top() && n.idx < p.Width(n.level) && IsPieceOf(p, x, n)
    requires t'.internals == t.internals[InternalKey(n.level - 2, n.idx) := x]
    ensures InternalsOk(c, p, t')
  {
    hide IsPieceOf, Plan.Width, Plan.Top;
    assert Node(n.level - 2 + 2, n.idx) == n;
  }

  lemma SameBesidesInternals(c: Config, p: Plan, t: State, t': State)
    requires Fits(c, p) && AppsOk(p, t) && LeavesOk(c, p, t) && EvmOk(c, p, t) && CountOk(p, t) && t.numSegments.Some?
    requires t'.apps == t.apps && t'.leaves == t.leaves && t'.evm == t.evm && t'.numSegments == t.numSegments
    ensures AppsOk(p, t') && LeavesOk(c, p, t') && EvmOk(c, p, t') && CountOk(p, t')
  {
    hide IsPieceOf, Plan.Top, Plan.Width, Plan.Proof, LeafKey;
  }

  lemma InternalStores(c: Config, p: Plan, t: State, t': State, n: Node, x: Piece)
    requires Fits(c, p) && TreeOk(c, p, t) && t.numSegments.Some?
    requires 2 <= n.level <= p.Top() && Ready(c, p, t, n) && !Stored(c, p, t, n) && IsPieceOf(p, x, n)
    requires t' == t.(internals := t.internals[InternalKey(n.level - 2, n.idx) := x])
    ensures TreeOk(c, p, t') && StoresJust(c, p, t, t', n)
  {
    hide StoresJust, Closed, Plan.Width, Plan.Top, InternalKey, IsPieceOf, Ready, Stored, InTree, AppsOk, LeavesOk, InternalsOk, EvmOk, CountOk, Last;
    ReadyInTree(c, p, t, n);
    InternalsAfter(c, p, t, t', n, x);
    SameBesidesInternals(c, p, t, t');
    InternalStoresJust(c, p, t, t', n, x);
    ClosedAfterStore(c, p, t, t', n);
  }

  lemma InternalStoresJust(c: Config, p: Plan, t: State, t': State, n: Node, x: Piece)
    requires p.Valid() && 2 <= n.level <= p.Top()
    requires t' == t.(internals := t.internals[InternalKey(n.level - 2, n.idx) := x])
    ensures StoresJust(c, p, t, t', n)
  {
    hide Plan.Top;
  }

  lemma InternalGroupReady(c: Config, p: Plan, t: State, q: Node)
    requires Fits(c, p) && t.numSegments.Some? && 3 <= q.level <= p.Top() && q.idx < p.Width(q.level)
    ensures HasInternals(t, q.level - 3, p.Lo(q.level, q.idx), p.Hi(q.level, q.idx)) <==> Ready(c, p, t, q)
  {
    if Ready(c, p, t, q) {
      forall i: nat {:trigger InternalKey(q.level - 3, i)} | p.Lo(q.level, q.idx) <= i < p.Hi(q.level, q.idx)
        ensures InternalKey(q.level - 3, i) in t.internals
      {
        ChildStored(c, p, t, q, i);
      }
    }
  }

  /** The scan for the least start and greatest end finds the first and the last child. */
  lemma {:induction false} ScannedRange(c: Config, p: Plan, t: State, q: Node, hi: nat)
    requires Fits(c, p) && InternalsOk(c, p, t) && 3 <= q.level <= p.Top() && q.idx < p.Width(q.level)
    requires p.Lo(q.level, q.idx) < hi <= p.Hi(q.level, q.idx)
    requires HasInternals(t, q.level - 3, p.Lo(q.level, q.idx), hi)
    ensures MinStart(t, q.level - 3, p.Lo(q.level, q.idx), hi) == p.SegmentStart(q)
    ensures MaxEnd(t, q.level - 3, p.Lo(q.level, q.idx), hi) == p.SegmentEnd(Node(q.level - 1, hi - 1))
    decreases hi
  {
    hide Plan.Lo, Plan.Hi, Plan.Width, Plan.SegmentStart, Plan.SegmentEnd, Plan.Top;
    var lo, child := p.Lo(q.level, q.idx), Node(q.level - 1, hi - 1);
    ChildBounds(p, q, hi - 1);
    assert IsPieceOf(p, t.internals[InternalKey(q.level - 3, hi - 1)], child);
    if hi > lo + 1 {
      ScannedRange(c, p, t, q, hi - 1);
    }
  }

  /** Where one child lies: not before its parent, right after its left neighbour. */
  lemma ChildBounds(p: Plan, q: Node, i: nat)
    requires p.Valid() && q.level >= 1 && q.idx < p.Width(q.level) && p.Lo(q.level, q.idx) <= i < p.Hi(q.level, q.idx)
    ensures i < p.Width(q.level - 1)
    ensures p.SegmentStart(q) <= p.SegmentStart(Node(q.level - 1, i)) <= p.SegmentEnd(Node(q.level - 1, i))
    ensures i == p.Lo(q.level, q.idx) ==> p.SegmentStart(q) == p.SegmentStart(Node(q.level - 1, i))
    ensures i > p.Lo(q.level, q.idx) ==> p.SegmentEnd(Node(q.level - 1, i - 1)) < p.SegmentStart(Node(q.level - 1, i))
  {
    hide Plan.Lo, Plan.Hi, Plan.Width, Plan.SegmentStart, Plan.SegmentEnd, Plan.Top;
    ChildRange(p, q);
    ChildrenTile(p, q);
    NodeHasSegments(p, Node(q.level - 1, i));
    StartMonotone(p, q, i);
  }

  lemma StartMonotone(p: Plan, q: Node, i: nat)
    requires p.Valid() && q.level >= 1 && q.idx < p.Width(q.level) && p.Lo(q.level, q.idx) <= i
    ensures p.SegmentStart(q) <= p.SegmentStart(Node(q.level - 1, i))
  {
    ChildrenTile(p, q);
    MulMonotone(p.Lo(q.level, q.idx), i, p.Span(q.level - 1));
  }

  lemma TotalIsInternalNodes(p: Plan, layers: nat)
    requires p.Valid()
    ensures TotalInternalProofs(p.Width(1), p.internalArity, layers) == InternalNodes(p, layers + 1)
  {
    if layers > 0 {
      TotalIsInternalNodes(p, layers - 1);
      InternalLayerWidth(p, layers - 1);
    }
  }

  /** The tail metadata counts the plan's internal nodes and names its final layer. */
  lemma TailMatchesPlan(c: Config, p: Plan, t: State)
    requires Fits(c, p) && CountOk(p, t) && t.numSegments.Some?
    ensures c.deferralCircuits == 0 ==> DeferralTailFor(c, t, p.FinalLayer()).None?
    ensures c.deferralCircuits > 0 ==>
              && DeferralTailFor(c, t, p.FinalLayer()).Some?
              && DeferralTailFor(c, t, p.FinalLayer()).value.recursiveLayer == p.FinalLayer()
              && DeferralTailFor(c, t, p.FinalLayer()).value.nodeIdx + 1 == InternalNodes(p, p.Top())
  {
    assert p.Width(1) == CeilDiv(p.segments, c.leafArity);
    TotalIsInternalNodes(p, p.FinalLayer() + 1);
    WidthPositive(p, p.Top());
  }

  lemma InternalRequestForGroup(c: Config, p: Plan, t: State, q: Node)
    requires Fits(c, p) && InternalsOk(c, p, t) && CountOk(p, t) && t.numSegments.Some?
    requires 3 <= q.level <= p.Top() && Ready(c, p, t, q)
    requires p.Lo(q.level, q.idx) < p.Hi(q.level, q.idx)
    ensures |NextInternal(c, t, q.level - 3, p.Lo(q.level, q.idx), p.Hi(q.level, q.idx), q.level == p.Top())| == 1
    ensures AsksFor(c, p, NextInternal(c, t, q.level - 3, p.Lo(q.level, q.idx), p.Hi(q.level, q.idx), q.level == p.Top())[0], q)
  {
    var lo, hi := p.Lo(q.level, q.idx), p.Hi(q.level, q.idx);
    InternalGroupReady(c, p, t, q);
    ScannedRange(c, p, t, q, hi);
    ChildrenTile(p, q);
    InternalChildren(c, p, t, q);
    hide Plan.Lo, Plan.Hi, Plan.SegmentStart, Plan.SegmentEnd, Plan.Width, MinStart, MaxEnd, InternalProofs, DeferralTailFor, Ready;
    if q.level == p.Top() {
      TailMatchesPlan(c, p, t);
    }
  }

  lemma InternalChildren(c: Config, p: Plan, t: State, q: Node)
    requires Fits(c, p) && InternalsOk(c, p, t) && 3 <= q.level <= p.Top() && q.idx < p.Width(q.level)
    requires p.Lo(q.level, q.idx) < p.Hi(q.level, q.idx)
    requires HasInternals(t, q.level - 3, p.Lo(q.level, q.idx), p.Hi(q.level, q.idx))
    ensures InternalProofs(t, q.level - 3, p.Lo(q.level, q.idx), p.Hi(q.level, q.idx)) == p.Children(q)
  {
    hide Plan.Lo, Plan.Hi, Plan.SegmentStart, Plan.SegmentEnd, Plan.Width;
    var lo, hi := p.Lo(q.level, q.idx), p.Hi(q.level, q.idx);
    forall j | 0 <= j < hi - lo ensures InternalProofs(t, q.level - 3, lo, hi)[j] == p.Children(q)[j] {
      assert IsPieceOf(p, t.internals[InternalKey(q.level - 3, lo + j)], Node(q.level - 1, lo + j));
    }
  }

  ghost predicate ResultFor(c: Config, p: Plan, r: InternalState, n: Node)
    requires Fits(c, p)
  {
    && 2 <= n.level <= p.Top() && r.layerIdx == n.level - 2
    && r.segmentStart == p.SegmentStart(n) && r.segmentEnd == p.SegmentEnd(n) && r.proof == Some(p.Proof(n))
    && (c.proofType.Evm? && n.level == p.Top() ==> r.readyForEvm)
  }

  /** Where the layer is neither final nor the top of a one-layer tree, the group looked up
    * is the parent's child range. */
  lemma MiddleLayer(c: Config, p: Plan, n: Node)
    requires Fits(c, p) && 2 <= n.level < p.Top() && InTree(c, p, n)
    requires !(NumInternalLayers(p.Width(1), c.internalArity) == n.level - 1 == 1)
    ensures ProofsAtLayer(p.Width(1), n.level - 2, c.internalArity) == p.Width(n.level) > 0
    ensures GroupStart(c, n.idx) == p.Lo(n.level + 1, p.Parent(n).idx)
    ensures Min(GroupStart(c, n.idx) + c.internalArity, p.Width(n.level)) == p.Hi(n.level + 1, p.Parent(n).idx)
    ensures p.Lo(n.level + 1, p.Parent(n).idx) < p.Hi(n.level + 1, p.Parent(n).idx)
  {
    InternalLayerWidth(p, n.level - 2);
    ParentInRange(p, n);
    var q := p.Parent(n);
    assert (q.idx + 1) * c.internalArity == q.idx * c.internalArity + c.internalArity;
  }

  /** One-layer tree: the single layer-0 proof is wrapped, alone, into the final one. */
  lemma WrapLayer(c: Config, p: Plan, t: State, r: InternalState, n: Node)
    requires Fits(c, p) && CountOk(p, t) && t.numSegments.Some? && ResultFor(c, p, r, n) && InTree(c, p, n)
    requires NumInternalLayers(p.Width(1), c.internalArity) == 1 && n.level == 2
    ensures AsksFor(c, p, InternalRequest([r.proof.value], 1, r.segmentStart, r.segmentEnd, true, DeferralTailFor(c, t, 1), t.depth0Merkle),
                    p.Parent(n))
    ensures Stored(c, p, t, n) ==> Ready(c, p, t, p.Parent(n))
  {
    var q := p.Parent(n);
    ParentInRange(p, n);
    assert p.FinalLayer() == 1 && p.Top() == 3;
    InternalLayerWidth(p, 0);
    InternalLayerWidth(p, 1);
    TopWidth(p);
    assert p.Width(2) == 1 by {
      NodesAfterAllLayers(p.Width(1), c.internalArity);
      WidthIsNodesAfter(p, 1);
      WidthIsNodesAfter(p, 0);
      if p.Width(1) == 1 { WidthOne(p, 1); }
    }
    assert n.idx == 0 && q == Node(3, 0) && p.Hi(3, 0) == 1;
    assert p.Children(q) == [p.Proof(n)];
    ChildrenTile(p, q);
    TailMatchesPlan(c, p, t);
  }

  lemma MiddleFollowUps(c: Config, p: Plan, t: State, n: Node)
    requires Fits(c, p) && InternalsOk(c, p, t) && CountOk(p, t) && t.numSegments.Some?
    requires 2 <= n.level < p.Top() && InTree(c, p, n)
    requires p.Lo(n.level + 1, p.Parent(n).idx) < p.Hi(n.level + 1, p.Parent(n).idx)
    ensures AsksForParent(c, p, t, NextInternal(c, t, n.level - 2, p.Lo(n.level + 1, p.Parent(n).idx), p.Hi(n.level + 1, p.Parent(n).idx),
                                                n.level - 1 == p.FinalLayer()), n)
  {
    ParentInRange(p, n);
    var q := p.Parent(n);
    InternalGroupReady(c, p, t, q);
    hide Plan.Lo, Plan.Hi, Plan.Width, Ready, Plan.Parent, InternalProofs, MinStart, MaxEnd, DeferralTailFor, AsksFor;
    if Ready(c, p, t, q) {
      InternalRequestForGroup(c, p, t, q);
    }
  }

  /** The three kinds of reply: at the top, under the wrap of a one-layer tree, and in between. */
  lemma ReplyAtTop(c: Config, p: Plan, t: State, r: InternalState, n: Node)
    requires Fits(c, p) && CountOk(p, t) && t.numSegments.Some? && ResultFor(c, p, r, n) && n.level == p.Top()
    requires r.segmentStart < p.segments
    ensures InternalFollowUps(c, t, r, InternalIdx(r.segmentStart, r.layerIdx, c.leafArity, c.internalArity)) ==
            Requests(if c.proofType.Evm? then [EvmRequest(r.proof.value, r.merkle, c.deferralCircuits > 0)] else [])
  {
    hide InternalIdx, Plan.Width, Plan.SegmentStart, Plan.SegmentEnd, Plan.Proof, NumInternalLayers, CeilDiv, ProofsAtLayer;
  }

  lemma ReplyUnderWrap(c: Config, p: Plan, t: State, r: InternalState, n: Node)
    requires Fits(c, p) && CountOk(p, t) && t.numSegments.Some? && ResultFor(c, p, r, n) && n.level == 2
    requires NumInternalLayers(CeilDiv(p.segments, c.leafArity), c.internalArity) == 1 && r.segmentStart < p.segments
    ensures InternalFollowUps(c, t, r, InternalIdx(r.segmentStart, r.layerIdx, c.leafArity, c.internalArity)) ==
            Requests([InternalRequest([r.proof.value], 1, r.segmentStart, r.segmentEnd, true, DeferralTailFor(c, t, 1), t.depth0Merkle)])
  {
    hide InternalIdx, Plan.Width, Plan.SegmentStart, Plan.SegmentEnd, Plan.Proof, NumInternalLayers, CeilDiv, ProofsAtLayer;
  }

  lemma ReplyBetween(c: Config, p: Plan, t: State, r: InternalState, n: Node)
    requires Fits(c, p) && CountOk(p, t) && t.numSegments.Some? && ResultFor(c, p, r, n) && n.level < p.Top()
    requires !(NumInternalLayers(CeilDiv(p.segments, c.leafArity), c.internalArity) == n.level - 1 == 1)
    requires InternalIdx(r.segmentStart, r.layerIdx, c.leafArity, c.internalArity) == n.idx && r.segmentStart < p.segments
    requires ProofsAtLayer(CeilDiv(p.segments, c.leafArity), n.level - 2, c.internalArity) == p.Width(n.level) > 0
    requires GroupStart(c, n.idx) < Min(GroupStart(c, n.idx) + c.internalArity, p.Width(n.level))
    ensures InternalFollowUps(c, t, r, n.idx) ==
            Requests(NextInternal(c, t, n.level - 2, GroupStart(c, n.idx), Min(GroupStart(c, n.idx) + c.internalArity, p.Width(n.level)),
                                  n.level - 1 == p.FinalLayer()))
  {
    hide InternalIdx, Plan.Width, Plan.SegmentStart, Plan.SegmentEnd, Plan.Proof, NumInternalLayers, CeilDiv, ProofsAtLayer, NextInternal, GroupStart;
  }

  lemma InternalFollowUpsRefine(c: Config, p: Plan, t: State, r: InternalState, n: Node)
    requires Fits(c, p) && InternalsOk(c, p, t) && CountOk(p, t) && t.numSegments.Some?
    requires ResultFor(c, p, r, n) && InTree(c, p, n) && Stored(c, p, t, n)
    requires InternalIdx(r.segmentStart, r.layerIdx, c.leafArity, c.internalArity) == n.idx && r.segmentStart < p.segments
    ensures var reply := InternalFollowUps(c, t, r, n.idx); reply.Requests? && AsksForParent(c, p, t, reply.requests, n)
  {
    hide Plan.Lo, Plan.Hi, Plan.Width, Plan.Top, Plan.FinalLayer, Plan.Parent, Ready, NextInternal, DeferralTailFor, InternalIdx, Stored;
    hide AsksFor, InternalsOk, CeilDiv, InternalFollowUps, GroupStart, ProofsAtLayer, NumInternalLayers;
    WidthOneIs(p);
    if n.level == p.Top() {
      ReplyAtTop(c, p, t, r, n);
      EvmFollowUp(c, p, t, n);
      if c.proofType.Evm? {
        EvmRequestAsks(c, p, r, n);
      }
    } else if NumInternalLayers(p.Width(1), c.internalArity) == n.level - 1 == 1 {
      ReplyUnderWrap(c, p, t, r, n);
      WrapLayer(c, p, t, r, n);
    } else {
      BelowTop(c, p, r, n);
      MiddleLayer(c, p, n);
      ReplyBetween(c, p, t, r, n);
      MiddleFollowUps(c, p, t, n);
    }
  }

  lemma BelowTop(c: Config, p: Plan, r: InternalState, n: Node)
    requires Fits(c, p) && ResultFor(c, p, r, n) && n.level != p.Top()
    ensures 2 <= n.level < p.Top()
  {
  }

  lemma WidthOneIs(p: Plan)
    requires p.Valid()
    ensures p.Width(1) == CeilDiv(p.segments, p.leafArity)
  {
    WidthZero(p);
  }

  lemma EvmRequestAsks(c: Config, p: Plan, r: InternalState, n: Node)
    requires Fits(c, p) && ResultFor(c, p, r, n) && n == Node(p.Top(), 0) && c.proofType.Evm?
    ensures AsksFor(c, p, EvmRequest(r.proof.value, r.merkle, c.deferralCircuits > 0), Node(p.Top() + 1, 0))
  {
    TopWidth(p);
    hide Plan.Width, Plan.Proof, Plan.SegmentStart, Plan.SegmentEnd, Plan.Top;
  }

  lemma EvmFollowUp(c: Config, p: Plan, t: State, n: Node)
    requires Fits(c, p) && n.level == p.Top() && InTree(c, p, n) && Stored(c, p, t, n)
    ensures n.idx == 0 && p.Parent(n) == Node(p.Top() + 1, 0)
    ensures Ready(c, p, t, p.Parent(n)) <==> c.proofType.Evm?
  {
    TopWidth(p);
    ParentInRange(p, n);
    assert p.Hi(p.Top() + 1, 0) == 1;
  }

  /** An internal result stores its node and asks for the parent just when that completes it:
    * a group of the next layer, the extra wrap of a one-layer tree, or the EVM step. */
  lemma InternalResultRefines(c: Config, p: Plan, t: State, r: InternalState, n: Node)
    requires Fits(c, p) && TreeOk(c, p, t) && t.numSegments.Some?
    requires ResultFor(c, p, r, n) && Ready(c, p, t, n) && !Stored(c, p, t, n)
    ensures var (t', reply) := HandleInternal(c, t, r);
            && TreeOk(c, p, t') && StoresJust(c, p, t, t', n) && t'.status == t.status
            && reply.Requests? && AsksForParent(c, p, t', reply.requests, n)
  {
    NodeHasSegments(p, n);
    InternalIdxOf(c, p, n);
    var (t', reply) := HandleInternal(c, t, r);
    InternalStores(c, p, t, t', n, Piece(r.segmentStart, r.segmentEnd, r.proof.value));
    InternalFollowUpsRefine(c, p, t', r, n);
  }

  // ---- the EVM result and the segment count ----

  lemma EvmResultRefines(c: Config, p: Plan, t: State, n: Node)
    requires Fits(c, p) && TreeOk(c, p, t) && t.numSegments.Some? && c.proofType.Evm?
    requires n == Node(p.Top() + 1, 0) && Ready(c, p, t, n) && !Stored(c, p, t, n)
    ensures var (t', f) := HandleEvm(c, t, Some(p.Proof(n)));
            && TreeOk(c, p, t') && StoresJust(c, p, t, t', n) && t'.status == t.status
            && AsksForParent(c, p, t', f, n)
  {
    EvmStores(c, p, t, t.(evm := Some(p.Proof(n))), n);
  }

  lemma EvmStores(c: Config, p: Plan, t: State, t': State, n: Node)
    requires Fits(c, p) && TreeOk(c, p, t) && t.numSegments.Some? && c.proofType.Evm?
    requires n == Node(p.Top() + 1, 0) && Ready(c, p, t, n) && t.evm.None? && t' == t.(evm := Some(p.Proof(n)))
    ensures TreeOk(c, p, t') && StoresJust(c, p, t, t', n) && !Ready(c, p, t', p.Parent(n))
  {
    assert InTree(c, p, n);
    hide Plan.Lo, Plan.Hi, Plan.Width, Ready, Plan.Proof;
    assert StoresJust(c, p, t, t', n);
    ClosedAfterStore(c, p, t, t', n);
    TooHigh(c, p, t', n);
  }

  lemma TooHigh(c: Config, p: Plan, t: State, n: Node)
    requires Fits(c, p) && n.level == Last(c, p)
    ensures !Ready(c, p, t, p.Parent(n))
  {
  }

  /** With no leaf or internal proof stored yet, the tail trigger asks for nothing. */
  lemma {:induction false} TailProofsEmpty(c: Config, p: Plan, t: State, layers: nat)
    requires Fits(c, p) && t.numSegments == Some(p.segments) && t.leaves == map[] && t.internals == map[]
    ensures TailProofs(c, t, layers) == []
  {
    if layers > 0 {
      TailProofsEmpty(c, p, t, layers - 1);
      TailProofEmpty(c, p, t, layers - 1);
    }
  }

  lemma TailProofEmpty(c: Config, p: Plan, t: State, layer: nat)
    requires Fits(c, p) && t.numSegments == Some(p.segments) && t.leaves == map[] && t.internals == map[]
    ensures TailProof(c, t, layer) == []
  {
    hide ChildCount, DeferralTailFor, Pow, TailChildren, TailEnd, Config.FinalLayer;
    var count := ChildCount(c, p.segments, layer);
    var lo := count - count % c.internalArity;
    if count % c.internalArity > 0 {
      NoTailChildren(c, t, layer, lo, count);
    }
  }

  lemma NoTailChildren(c: Config, t: State, layer: nat, lo: nat, hi: nat)
    requires t.leaves == map[] && t.internals == map[] && lo < hi
    ensures !HasTailChildren(c, t, layer, lo, hi)
  {
    if layer == 0 {
      assert LeafKey(c, lo) !in t.leaves;
    } else {
      assert InternalKey(layer - 1, lo) !in t.internals;
    }
  }

  /** The partial last batch, the only one the driver could not recognise without the count. */
  ghost function TailBatch(p: Plan): Node
    requires p.Valid()
  {
    Node(1, p.segments / p.leafArity)
  }

  lemma TailBatchFacts(c: Config, p: Plan, b: Node)
    requires Fits(c, p) && b.level == 1 && b.idx < p.Width(1)
    ensures (b.idx + 1) * p.leafArity > p.segments <==> b == TailBatch(p)
    ensures b == TailBatch(p) ==> p.segments % p.leafArity > 0 && p.Hi(1, b.idx) == p.segments
  {
    DivBounds(p.segments, p.leafArity);
    CeilDivBelow(p.segments, p.leafArity, b.idx);
    if (b.idx + 1) * p.leafArity > p.segments {
      DivUnique(p.segments, p.leafArity, b.idx);
    }
    assert (b.idx + 1) * p.leafArity == b.idx * p.leafArity + p.leafArity;
  }

  lemma TailBatchExists(p: Plan)
    requires p.Valid()
    ensures p.segments % p.leafArity > 0 <==> TailBatch(p).idx < p.Width(1)
  {
    DivBounds(p.segments, p.leafArity);
    CeilDivBelow(p.segments, p.leafArity, p.segments / p.leafArity);
  }

  /** Learning the count changes nothing stored, makes at most the tail batch ready, and asks
    * for it exactly then. */
  lemma ExecuteE2Refines(c: Config, p: Plan, t: State)
    requires Fits(c, p) && TreeOk(c, p, t) && t.numSegments.None?
    ensures var (t', f) := HandleExecuteE2(c, t, p.segments);
            && t' == t.(numSegments := Some(p.segments)) && TreeOk(c, p, t')
            && (forall m: Node :: Ready(c, p, t', m) && m != TailBatch(p) ==> Ready(c, p, t, m))
            && (forall m: Node :: Ready(c, p, t, m) ==> Ready(c, p, t', m) && m != TailBatch(p))
            && (if Ready(c, p, t', TailBatch(p)) then |f| == 1 && AsksFor(c, p, f[0], TailBatch(p)) else f == [])
  {
    var (t', f) := HandleExecuteE2(c, t, p.segments);
    TailProofsEmpty(c, p, t', NumInternalLayers(CeilDiv(p.segments, c.leafArity), c.internalArity));
    CountMakesReady(c, p, t, t');
    FlushAsksForTail(c, p, t');
  }

  lemma NotReadyAboveLeaves(c: Config, p: Plan, t: State, m: Node)
    requires Fits(c, p) && m.level >= 2 && t.leaves == map[] && t.internals == map[]
    ensures !Ready(c, p, t, m)
  {
    hide Plan.Lo, Plan.Hi, Plan.Width;
    if InTree(c, p, m) {
      ChildRange(p, m);
      assert !Stored(c, p, t, Node(m.level - 1, p.Lo(m.level, m.idx)));
    }
  }

  lemma CountMakesReady(c: Config, p: Plan, t: State, t': State)
    requires Fits(c, p) && TreeOk(c, p, t) && t.numSegments.None? && t' == t.(numSegments := Some(p.segments))
    ensures TreeOk(c, p, t')
    ensures forall m: Node :: Ready(c, p, t', m) && m != TailBatch(p) ==> Ready(c, p, t, m)
    ensures forall m: Node :: Ready(c, p, t, m) ==> Ready(c, p, t', m) && m != TailBatch(p)
  {
    forall m: Node
      ensures Ready(c, p, t', m) && m != TailBatch(p) ==> Ready(c, p, t, m)
      ensures Ready(c, p, t, m) ==> Ready(c, p, t', m) && m != TailBatch(p)
    {
      assert forall n: Node :: Stored(c, p, t', n) <==> Stored(c, p, t, n);
      if m.level >= 2 {
        NotReadyAboveLeaves(c, p, t, m);
        NotReadyAboveLeaves(c, p, t', m);
      } else if m.level == 1 && m.idx < p.Width(1) {
        TailBatchFacts(c, p, m);
      }
    }
  }

  lemma FlushAsksForTail(c: Config, p: Plan, t: State)
    requires Fits(c, p) && AppsOk(p, t) && t.numSegments == Some(p.segments) && t.leaves == map[]
    ensures var f := FlushPendingLeafBatches(c, t);
            if Ready(c, p, t, TailBatch(p)) then |f| == 1 && AsksFor(c, p, f[0], TailBatch(p)) else f == []
  {
    var b := TailBatch(p);
    TailBatchExists(p);
    DivBounds(p.segments, p.leafArity);
    if p.segments % p.leafArity > 0 {
      TailBatchFacts(c, p, b);
      assert p.Lo(1, b.idx) == (p.segments / c.leafArity) * c.leafArity;
      if HasApps(t, p.Lo(1, b.idx), p.segments) {
        assert Ready(c, p, t, b);
      }
      if Ready(c, p, t, b) {
        LeafRequestForBatch(c, p, t, b);
      }
    }
  }
}
