/** The intended recursion tree, level by level: level 0 is the app proofs, level 1
  * the leaf proofs, level `l + 2` internal layer `l`, and one level above the top the
  * EVM proof. Nothing here looks at the driver; this is what it is measured against. */
module TreePlan {
  import opened Arithmetic
  import opened Protocol
  import opened Recursion

  datatype Node = Node(level: nat, idx: nat)

  datatype Plan = Plan(segments: nat, leafArity: nat, internalArity: nat) {

    ghost predicate Valid() {
      segments >= 1 && leafArity >= 1 && internalArity >= 2
    }

    /** Children per full node of level `k`. */
    function Arity(k: nat): nat {
      if k <= 1 then leafArity else internalArity
    }

    /** Number of nodes in level `k`. */
    ghost function Width(k: nat): nat
      requires Valid()
    {
      if k == 0 then segments else CeilDiv(Width(k - 1), Arity(k))
    }

    /** The internal layer that holds the final proof: never layer 0. */
    ghost function FinalLayer(): nat
      requires Valid()
    {
      Max(NumInternalLayers(CeilDiv(segments, leafArity), internalArity), 2) - 1
    }

    ghost function Top(): nat
      requires Valid()
    {
      FinalLayer() + 2
    }

    /** Children of node `p` of level `k` are `[Lo, Hi)` of level `k - 1`. */
    ghost function Lo(k: nat, p: nat): nat {
      p * Arity(k)
    }

    ghost function Hi(k: nat, p: nat): nat
      requires Valid() && k >= 1
    {
      Min((p + 1) * Arity(k), Width(k - 1))
    }

    ghost function Parent(n: Node): Node
      requires Valid()
    {
      Node(n.level + 1, n.idx / Arity(n.level + 1))
    }

    /** Segments under a full node of level `k`. */
    ghost function Span(k: nat): nat {
      if k == 0 then 1 else Arity(k) * Span(k - 1)
    }

    ghost function SegmentStart(n: Node): nat {
      n.idx * Span(n.level)
    }

    ghost function SegmentEnd(n: Node): int {
      Min((n.idx + 1) * Span(n.level), segments) - 1
    }

    /** The sequential meaning of a node: fold its children, left to right. */
    ghost function Proof(n: Node): Payload
      requires Valid()
      decreases n.level, 1
    {
      if n.level == 0 then AppProof(n.idx)
      else if n.level == 1 then LeafProof(Children(n))
      else if n.level <= Top() then InternalProof(n.level - 2, Children(n))
      else EvmProof(Proof(Node(n.level - 1, 0)))
    }

    ghost function Children(n: Node): seq<Payload>
      requires Valid() && n.level >= 1
      decreases n.level, 0
    {
      var lo, hi := Lo(n.level, n.idx), Hi(n.level, n.idx);
      seq(if lo < hi then hi - lo else 0, j requires 0 <= j => Proof(Node(n.level - 1, lo + j)))
    }
  }

  // ---- shape ----

  lemma WidthPositive(p: Plan, k: nat)
    requires p.Valid()
    ensures p.Width(k) >= 1
  {
    if k > 0 {
      WidthPositive(p, k - 1);
      CeilDivBelow(p.Width(k - 1), p.Arity(k), 0);
    }
  }

  lemma WidthOne(p: Plan, k: nat)
    requires p.Valid() && k >= 1 && p.Width(k) == 1
    ensures p.Width(k + 1) == 1
  {
    assert CeilDiv(1, p.internalArity) == 1 by {
      CeilDivBelow(1, p.internalArity, 0);
      CeilDivBelow(1, p.internalArity, 1);
    }
  }

  /** Every node has exactly one parent, and lies in that parent's child range. */
  lemma ParentInRange(p: Plan, n: Node)
    requires p.Valid() && n.idx < p.Width(n.level)
    ensures p.Parent(n).idx < p.Width(n.level + 1)
    ensures p.Lo(n.level + 1, p.Parent(n).idx) <= n.idx < p.Hi(n.level + 1, p.Parent(n).idx)
  {
    var r, q := p.Arity(n.level + 1), p.Parent(n).idx;
    DivBounds(n.idx, r);
    CeilDivBelow(p.Width(n.level), r, q);
  }

  lemma ChildRange(p: Plan, n: Node)
    requires p.Valid() && n.level >= 1 && n.idx < p.Width(n.level)
    ensures p.Lo(n.level, n.idx) < p.Hi(n.level, n.idx) <= p.Width(n.level - 1)
  {
    CeilDivBelow(p.Width(n.level - 1), p.Arity(n.level), n.idx);
  }

  lemma ChildParent(p: Plan, n: Node, c: nat)
    requires p.Valid() && n.level >= 1 && p.Lo(n.level, n.idx) <= c < p.Hi(n.level, n.idx)
    ensures p.Parent(Node(n.level - 1, c)) == n
  {
    DivUnique(c, p.Arity(n.level), n.idx);
  }

  lemma {:induction false} NodesAfterFront(n: nat, a: nat, rounds: nat)
    requires a > 0
    ensures NodesAfter(n, a, rounds + 1) == NodesAfter(CeilDiv(n, a), a, rounds)
  {
    if rounds > 0 {
      NodesAfterFront(n, a, rounds - 1);
    }
  }

  lemma {:induction false} WidthIsNodesAfter(p: Plan, rounds: nat)
    requires p.Valid()
    ensures p.Width(rounds + 1) == NodesAfter(p.Width(1), p.internalArity, rounds)
  {
    if rounds > 0 {
      WidthIsNodesAfter(p, rounds - 1);
    }
  }

  lemma {:induction false} ProofsAtLayerIsNodesAfter(n: nat, layer: nat, a: nat)
    requires a >= 2 && n >= 1
    ensures Max(ProofsAtLayer(n, layer, a), 1) == NodesAfter(n, a, layer + 1)
    ensures n >= 2 && layer < LayersAbove(n, a) ==> ProofsAtLayer(n, layer, a) >= 1
    decreases layer
  {
    CeilDivBelow(n, a, 0);
    NodesAfterFront(n, a, layer);
    if n == 1 {
      CeilDivBelow(1, a, 1);
      assert CeilDiv(1, a) == 1;
      NodesAfterOne(a, layer);
    } else if layer == 0 {
      assert NodesAfter(n, a, 1) == CeilDiv(NodesAfter(n, a, 0), a);
    } else {
      ProofsAtLayerIsNodesAfter(CeilDiv(n, a), layer - 1, a);
    }
  }

  lemma {:induction false} NodesAfterOne(a: nat, rounds: nat)
    requires a >= 2
    ensures NodesAfter(1, a, rounds) == 1
  {
    if rounds > 0 {
      NodesAfterOne(a, rounds - 1);
      CeilDivBelow(1, a, 0);
      CeilDivBelow(1, a, 1);
    }
  }

  /** What the driver's per-layer count says about the plan: exact while the layer is inside
    * the natural tree, and 0 where the plan has a single wrapping node. */
  lemma InternalLayerWidth(p: Plan, layer: nat)
    requires p.Valid()
    ensures p.Width(1) >= 1
    ensures p.Width(layer + 2) == Max(ProofsAtLayer(p.Width(1), layer, p.internalArity), 1)
    ensures p.Width(1) >= 2 && layer < NumInternalLayers(p.Width(1), p.internalArity) ==>
              p.Width(layer + 2) == ProofsAtLayer(p.Width(1), layer, p.internalArity)
  {
    WidthPositive(p, 1);
    ProofsAtLayerIsNodesAfter(p.Width(1), layer, p.internalArity);
    WidthIsNodesAfter(p, layer + 1);
  }

  lemma {:induction false} NodesAfterAllLayers(n: nat, a: nat)
    requires a >= 2 && n >= 1
    ensures NodesAfter(n, a, LayersAbove(n, a)) == 1
  {
    if n >= 2 {
      CeilDivShrinks(n, a);
      NodesAfterAllLayers(CeilDiv(n, a), a);
      NodesAfterFront(n, a, LayersAbove(n, a) - 1);
    }
  }

  /** The top level has exactly one node, and so has every level above it. */
  lemma TopWidth(p: Plan)
    requires p.Valid()
    ensures p.Width(p.Top()) == 1 && p.Width(p.Top() + 1) == 1
  {
    var n, a := p.Width(1), p.internalArity;
    WidthPositive(p, 1);
    NodesAfterAllLayers(n, a);
    WidthIsNodesAfter(p, LayersAbove(n, a));
    assert p.Width(LayersAbove(n, a) + 1) == 1;
    if p.Top() > LayersAbove(n, a) + 1 {
      WidthOne(p, LayersAbove(n, a) + 1);
      if p.Top() > LayersAbove(n, a) + 2 {
        WidthOne(p, LayersAbove(n, a) + 2);
      }
    }
    WidthOne(p, p.Top());
  }

  // ---- segment ranges ----

  lemma {:induction false} SpanClosedForm(p: Plan, layer: nat)
    requires p.Valid()
    ensures p.Span(layer + 2) == Pow(p.internalArity, layer + 1) * p.leafArity
    ensures p.Span(1) == p.leafArity
  {
    assert p.Span(1) == p.leafArity * p.Span(0);
    if layer == 0 {
      assert p.Span(2) == p.internalArity * p.Span(1);
      assert Pow(p.internalArity, 1) == p.internalArity * Pow(p.internalArity, 0);
    } else {
      SpanClosedForm(p, layer - 1);
      MulAssociative(p.internalArity, Pow(p.internalArity, layer), p.leafArity);
    }
  }

  lemma {:induction false} SpanPositive(p: Plan, k: nat)
    requires p.Valid()
    ensures p.Span(k) >= 1
  {
    if k > 0 {
      SpanPositive(p, k - 1);
      MulMonotone(1, p.Arity(k), p.Span(k - 1));
    }
  }

  /** A node exists exactly when its first segment does. */
  lemma {:induction false} NodeHasSegments(p: Plan, n: Node)
    requires p.Valid()
    ensures n.idx < p.Width(n.level) <==> p.SegmentStart(n) < p.segments
    ensures n.idx < p.Width(n.level) ==> p.SegmentStart(n) <= p.SegmentEnd(n) < p.segments
    decreases n.level
  {
    if n.level > 0 {
      var lo := p.Lo(n.level, n.idx);
      NodeHasSegments(p, Node(n.level - 1, lo));
      CeilDivBelow(p.Width(n.level - 1), p.Arity(n.level), n.idx);
      MulAssociative(n.idx, p.Arity(n.level), p.Span(n.level - 1));
    }
    SpanPositive(p, n.level);
    assert (n.idx + 1) * p.Span(n.level) == n.idx * p.Span(n.level) + p.Span(n.level);
  }

  /** A node's children tile its segment range: the first starts with it, the last ends
    * with it, and each starts right after its left neighbour. */
  lemma ChildrenTile(p: Plan, n: Node)
    requires p.Valid() && n.level >= 1 && n.idx < p.Width(n.level)
    ensures p.SegmentStart(Node(n.level - 1, p.Lo(n.level, n.idx))) == p.SegmentStart(n)
    ensures p.Hi(n.level, n.idx) >= 1
    ensures p.SegmentEnd(Node(n.level - 1, p.Hi(n.level, n.idx) - 1)) == p.SegmentEnd(n)
    ensures forall c: nat {:trigger Node(n.level - 1, c)} :: p.Lo(n.level, n.idx) < c < p.Hi(n.level, n.idx) ==>
              p.SegmentEnd(Node(n.level - 1, c - 1)) + 1 == p.SegmentStart(Node(n.level - 1, c))
  {
    var k, s := n.level - 1, p.Span(n.level - 1);
    ChildRange(p, n);
    MulAssociative(n.idx, p.Arity(n.level), s);
    MulAssociative(n.idx + 1, p.Arity(n.level), s);
    var hi := p.Hi(n.level, n.idx);
    NodeHasSegments(p, Node(k, hi));
    forall c: nat {:trigger Node(n.level - 1, c)} | p.Lo(n.level, n.idx) < c < hi
      ensures p.SegmentEnd(Node(n.level - 1, c - 1)) + 1 == p.SegmentStart(Node(n.level - 1, c))
    {
      NodeHasSegments(p, Node(k, c));
    }
    if hi < (n.idx + 1) * p.Arity(n.level) {
      MulMonotone(hi, (n.idx + 1) * p.Arity(n.level), s);
    }
  }

  // ---- the folded proof, flattened ----

  ghost function Segments(x: Payload): seq<nat>
    decreases x, 1
  {
    match x
    case AppProof(s) => [s]
    case LeafProof(children) => SegmentsOfAll(children)
    case InternalProof(_, children) => SegmentsOfAll(children)
    case EvmProof(inner) => Segments(inner)
  }

  ghost function SegmentsOfAll(xs: seq<Payload>): seq<nat>
    decreases xs, 0
  {
    if xs == [] then [] else SegmentsOfAll(xs[..|xs| - 1]) + Segments(xs[|xs| - 1])
  }

  ghost function Interval(lo: nat, hi: int): seq<nat>
    requires hi >= lo
  {
    seq(hi - lo, i requires 0 <= i => lo + i)
  }

  /** Proofs of adjacent intervals, in order, together cover the joined interval. */
  lemma {:induction false} AdjacentIntervals(xs: seq<Payload>, bounds: seq<nat>)
    requires |bounds| == |xs| + 1
    requires forall j :: 0 <= j < |xs| ==> bounds[j] <= bounds[j + 1] && Segments(xs[j]) == Interval(bounds[j], bounds[j + 1])
    ensures bounds[0] <= bounds[|xs|]
    ensures SegmentsOfAll(xs) == Interval(bounds[0], bounds[|xs|])
  {
    if xs != [] {
      var m := |xs| - 1;
      AdjacentIntervals(xs[..m], bounds[..m + 1]);
      assert Interval(bounds[0], bounds[m]) + Interval(bounds[m], bounds[m + 1]) == Interval(bounds[0], bounds[m + 1]);
    }
  }

  /** Where the `j`-th child of `n` starts; after the last child, where `n` ends. */
  ghost function Boundary(p: Plan, n: Node, j: nat): int
    requires p.Valid() && n.level >= 1
  {
    var c := Node(n.level - 1, p.Lo(n.level, n.idx) + j);
    if c.idx < p.Hi(n.level, n.idx) then p.SegmentStart(c) else p.SegmentEnd(n) + 1
  }

  lemma BoundaryNext(p: Plan, n: Node, j: nat)
    requires p.Valid() && n.level >= 1 && n.idx < p.Width(n.level)
    requires p.Lo(n.level, n.idx) + j < p.Hi(n.level, n.idx)
    ensures p.SegmentEnd(Node(n.level - 1, p.Lo(n.level, n.idx) + j)) + 1 == Boundary(p, n, j + 1)
  {
    ChildrenTile(p, n);
    var next := Node(n.level - 1, p.Lo(n.level, n.idx) + j + 1);
    assert Node(n.level - 1, next.idx - 1) == Node(n.level - 1, p.Lo(n.level, n.idx) + j);
  }

  /** The fold of any node covers exactly its segments, in order, each once. */
  lemma {:induction false} ProofCoversSegments(p: Plan, n: Node)
    requires p.Valid() && n.idx < p.Width(n.level) && n.level <= p.Top()
    ensures p.SegmentStart(n) <= p.SegmentEnd(n)
    ensures Segments(p.Proof(n)) == Interval(p.SegmentStart(n), p.SegmentEnd(n) + 1)
    decreases n.level, 2
  {
    NodeHasSegments(p, n);
    if n.level == 0 {
      assert p.Span(0) == 1;
      assert Interval(n.idx, n.idx + 1) == [n.idx];
    } else {
      ChildrenCoverSegments(p, n);
      ChildRange(p, n);
      ChildrenTile(p, n);
    }
  }

  lemma {:induction false} ChildrenCoverSegments(p: Plan, n: Node)
    requires p.Valid() && n.level >= 1 && n.idx < p.Width(n.level) && n.level <= p.Top()
    ensures 0 <= Boundary(p, n, 0) <= Boundary(p, n, |p.Children(n)|)
    ensures SegmentsOfAll(p.Children(n)) == Interval(Boundary(p, n, 0), Boundary(p, n, |p.Children(n)|))
    decreases n.level, 1
  {
    hide Plan.Children, Boundary, Plan.Width, Plan.Top;
    var kids := p.Children(n);
    forall j: nat | j <= |kids| ensures Boundary(p, n, j) >= 0 {
      BoundaryPositive(p, n, j);
    }
    var bounds: seq<nat> := seq(|kids| + 1, j requires 0 <= j <= |kids| => Boundary(p, n, j));
    forall j | 0 <= j < |kids|
      ensures bounds[j] <= bounds[j + 1] && Segments(kids[j]) == Interval(bounds[j], bounds[j + 1])
    {
      ChildCoversSegments(p, n, j);
    }
    AdjacentIntervals(kids, bounds);
  }

  lemma BoundaryPositive(p: Plan, n: Node, j: nat)
    requires p.Valid() && n.level >= 1 && n.idx < p.Width(n.level)
    ensures Boundary(p, n, j) >= 0
  {
    NodeHasSegments(p, n);
  }

  lemma {:induction false} ChildCoversSegments(p: Plan, n: Node, j: nat)
    requires p.Valid() && n.level >= 1 && n.idx < p.Width(n.level) && n.level <= p.Top() && j < |p.Children(n)|
    ensures 0 <= Boundary(p, n, j) <= Boundary(p, n, j + 1)
    ensures Segments(p.Children(n)[j]) == Interval(Boundary(p, n, j), Boundary(p, n, j + 1))
    decreases n.level, 0
  {
    var child := Node(n.level - 1, p.Lo(n.level, n.idx) + j);
    ChildRange(p, n);
    assert p.Children(n)[j] == p.Proof(child);
    assert Boundary(p, n, j) == p.SegmentStart(child);
    hide Plan.Lo, Plan.Hi, Plan.Children, Plan.Width, Plan.Top, Plan.SegmentStart, Plan.SegmentEnd;
    ProofCoversSegments(p, child);
    BoundaryNext(p, n, j);
    BoundaryPositive(p, n, j);
  }

  /** The root folds all segments `0 .. segments - 1` in order. */
  lemma RootCoversAllSegments(p: Plan)
    requires p.Valid()
    ensures Segments(p.Proof(Node(p.Top(), 0))) == Interval(0, p.segments)
    ensures Segments(p.Proof(Node(p.Top() + 1, 0))) == Interval(0, p.segments)
  {
    TopWidth(p);
    ProofCoversSegments(p, Node(p.Top(), 0));
    NodeHasSegments(p, Node(p.Top(), 1));
  }

  // ---- how many internal proofs ----

  /** Nodes in levels 2 .. k, the internal proofs of a tree cut at level `k`. */
  ghost function InternalNodes(p: Plan, k: nat): nat
    requires p.Valid()
  {
    if k < 2 then 0 else InternalNodes(p, k - 1) + p.Width(k)
  }

  lemma LossStep(a: nat, x: int, lost: int, w: nat, w': nat)
    requires a >= 2 && w' >= 1
    requires (a - 1) * x <= lost - w
    requires (w' - 1) * a < w
    ensures (a - 1) * (x + (w' - 1)) <= lost - w'
  {
    assert (a - 1) * (x + (w' - 1)) == (a - 1) * x + ((w' - 1) * a - (w' - 1));
  }

  /** `(a - 1) * sum(width - 1)` is bounded by what the widths lose on the way up. */
  lemma {:induction false} InternalNodesBound(p: Plan, k: nat)
    requires p.Valid() && k >= 1
    ensures (p.internalArity - 1) * (InternalNodes(p, k) - (k - 1)) <= p.Width(1) - p.Width(k)
  {
    if k > 1 {
      InternalNodesBound(p, k - 1);
      WidthPositive(p, k);
      CeilDivBelow(p.Width(k - 1), p.internalArity, p.Width(k) - 1);
      LossStep(p.internalArity, InternalNodes(p, k - 1) - (k - 2), p.Width(1), p.Width(k - 1), p.Width(k));
    }
  }

  lemma QuotientBound(d: nat, x: int, n: nat)
    requires d >= 1 && d * x <= n
    ensures x <= n / d
  {
    if x > n / d {
      DivBounds(n, d);
      MulMonotone(n / d + 1, x, d);
    }
  }

  /** With final layer F and `n` leaves: at most `(F + 1) + (n - 1) / (a - 1)` internal proofs. */
  lemma InternalJobsBound(p: Plan)
    requires p.Valid()
    ensures p.Width(1) >= 1
    ensures InternalNodes(p, p.Top()) <= p.FinalLayer() + 1 + (p.Width(1) - 1) / (p.internalArity - 1)
  {
    InternalNodesBound(p, p.Top());
    WidthPositive(p, 1);
    TopWidth(p);
    QuotientBound(p.internalArity - 1, InternalNodes(p, p.Top()) - (p.Top() - 1), p.Width(1) - 1);
  }
}
