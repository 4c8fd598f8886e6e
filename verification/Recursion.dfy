/** The tree-plan arithmetic of `proof_state/recursion.rs`: the four loops, each
  * proved against a closed form. */
module Recursion {
  import opened Arithmetic

  /** How many rounds of grouping by `a` bring `n` nodes down to at most one. */
  function LayersAbove(n: nat, a: nat): nat
    requires a >= 2
  {
    if n <= 1 then 0 else
      CeilDivShrinks(n, a);
      1 + LayersAbove(CeilDiv(n, a), a)
  }

  function NumInternalLayers(n: nat, a: nat): (layers: nat)
    requires a >= 2
    ensures layers >= 1
  {
    if n <= 1 then 1 else LayersAbove(n, a)
  }

  /** Nodes in internal layer `layer` above `n` leaves; a layer above the root has none. */
  function ProofsAtLayer(n: nat, layer: nat, a: nat): nat
    requires a > 0
    decreases layer
  {
    if n == 1 then 0
    else if layer == 0 then CeilDiv(n, a)
    else ProofsAtLayer(CeilDiv(n, a), layer - 1, a)
  }

  lemma CeilDivShrinks(n: nat, a: nat)
    requires n >= 2 && a >= 2
    ensures 1 <= CeilDiv(n, a) < n
  {
    CeilDivBelow(n, a, 0);
    CeilDivBelow(n, a, n - 1);
    MulMonotone(2, a, n - 1);
  }

  /** The layer loop stops after the least number of rounds `k` with `a^k >= n`. */
  lemma {:induction false} LayersAboveLeast(n: nat, a: nat)
    requires a >= 2 && n >= 1
    ensures n <= Pow(a, LayersAbove(n, a))
    ensures n >= 2 ==> Pow(a, LayersAbove(n, a) - 1) < n
  {
    if n >= 2 {
      CeilDivShrinks(n, a);
      var m, k := CeilDiv(n, a), LayersAbove(n, a) - 1;
      LayersAboveLeast(m, a);
      assert Pow(a, k + 1) == Pow(a, k) * a && (k > 0 ==> Pow(a, k) == Pow(a, k - 1) * a);
      hide Pow, CeilDiv;
      CeilDivBelow(n, a, Pow(a, k));
      if m >= 2 {
        CeilDivBelow(n, a, Pow(a, k - 1));
      }
    }
  }

  /** Layer widths in closed form: `ceil(n / a^(layer+1))` below the layer count, none above. */
  lemma {:induction false} ProofsAtLayerClosedForm(n: nat, layer: nat, a: nat)
    requires a >= 2 && n >= 2
    ensures Pow(a, layer + 1) > 0
    ensures ProofsAtLayer(n, layer, a) ==
            if layer < NumInternalLayers(n, a) then CeilDiv(n, Pow(a, layer + 1)) else 0
    decreases layer
  {
    PowPositive(a, layer + 1);
    CeilDivShrinks(n, a);
    var m := CeilDiv(n, a);
    if layer == 0 {
      assert Pow(a, 1) == a * Pow(a, 0) == a;
    } else if m >= 2 {
      ProofsAtLayerClosedForm(m, layer - 1, a);
      PowPositive(a, layer);
      CeilDivCompose(n, a, Pow(a, layer));
    }
  }

  /** `num_internal_layers_for_leaf_count`. */
  method NumInternalLayersForLeafCount(numLeafProofs: nat, internalArity: nat) returns (layers: nat)
    requires internalArity >= 2
    ensures layers == NumInternalLayers(numLeafProofs, internalArity)
    ensures numLeafProofs <= 1 ==> layers == 1
    ensures numLeafProofs >= 2 ==> layers >= 1 && Pow(internalArity, layers - 1) < numLeafProofs <= Pow(internalArity, layers)
  {
    if numLeafProofs <= 1 {
      return 1;
    }
    LayersAboveLeast(numLeafProofs, internalArity);
    var nodes := numLeafProofs;
    layers := 0;
    while nodes > 1
      invariant nodes >= 1
      invariant layers + LayersAbove(nodes, internalArity) == LayersAbove(numLeafProofs, internalArity)
      decreases nodes
    {
      CeilDivShrinks(nodes, internalArity);
      nodes := CeilDiv(nodes, internalArity);
      layers := layers + 1;
    }
  }

  /** `num_proofs_at_internal_layer_for_leaf_count`. */
  method NumProofsAtInternalLayer(numLeafProofs: nat, layerIdx: nat, internalArity: nat) returns (ret: nat)
    requires internalArity > 0
    ensures ret == ProofsAtLayer(numLeafProofs, layerIdx, internalArity)
    ensures internalArity >= 2 && numLeafProofs >= 2 ==>
              Pow(internalArity, layerIdx + 1) > 0 &&
              ret == if layerIdx < NumInternalLayers(numLeafProofs, internalArity)
                     then CeilDiv(numLeafProofs, Pow(internalArity, layerIdx + 1)) else 0
  {
    if internalArity >= 2 && numLeafProofs >= 2 {
      ProofsAtLayerClosedForm(numLeafProofs, layerIdx, internalArity);
    }
    ret := numLeafProofs;
    for i := 0 to layerIdx + 1
      invariant i <= layerIdx ==> ProofsAtLayer(ret, layerIdx - i, internalArity) == ProofsAtLayer(numLeafProofs, layerIdx, internalArity)
      invariant i == layerIdx + 1 ==> ret == ProofsAtLayer(numLeafProofs, layerIdx, internalArity)
    {
      if ret == 1 {
        return 0;
      }
      ret := CeilDiv(ret, internalArity);
    }
  }

  /** `segment_start_of_internal_proof_for_leaf_count`. */
  method SegmentStartOfInternalProof(leafArity: nat, internalArity: nat, layerIdx: nat, idx: nat) returns (start: nat)
    ensures start == idx * Pow(internalArity, layerIdx + 1) * leafArity
  {
    var base := internalArity;
    for i := 0 to layerIdx
      invariant base == Pow(internalArity, i + 1)
    {
      base := base * internalArity;
    }
    start := idx * base * leafArity;
  }

  function InternalIdx(segmentStart: nat, layerIdx: nat, leafArity: nat, internalArity: nat): nat
    requires leafArity > 0 && internalArity > 0
  {
    InternalSpanPositive(leafArity, internalArity, layerIdx);
    segmentStart / (Pow(internalArity, layerIdx + 1) * leafArity)
  }

  lemma InternalSpanPositive(leafArity: nat, internalArity: nat, layerIdx: nat)
    requires leafArity > 0 && internalArity > 0
    ensures Pow(internalArity, layerIdx + 1) * leafArity > 0
  {
    PowPositive(internalArity, layerIdx + 1);
    MulMonotone(1, Pow(internalArity, layerIdx + 1), leafArity);
  }

  /** `segment_start_to_internal_idx_with_batch`. */
  method SegmentStartToInternalIdx(segmentStart: nat, layerIdx: nat, leafArity: nat, internalArity: nat) returns (idx: nat)
    requires leafArity > 0 && internalArity > 0
    ensures idx == InternalIdx(segmentStart, layerIdx, leafArity, internalArity)
    ensures Pow(internalArity, layerIdx + 1) * leafArity > 0
    ensures idx * (Pow(internalArity, layerIdx + 1) * leafArity) <= segmentStart
    ensures segmentStart < (idx + 1) * (Pow(internalArity, layerIdx + 1) * leafArity)
  {
    InternalSpanPositive(leafArity, internalArity, layerIdx);
    var base := internalArity * leafArity;
    for i := 0 to layerIdx
      invariant base == Pow(internalArity, i + 1) * leafArity
    {
      MulAssociative(internalArity, Pow(internalArity, i + 1), leafArity);
      base := base * internalArity;
    }
    idx := segmentStart / base;
    DivBounds(segmentStart, base);
  }

  /** Index to segment start and back is the identity, at every layer. */
  lemma SegmentStartRoundTrip(leafArity: nat, internalArity: nat, layerIdx: nat, idx: nat)
    requires leafArity > 0 && internalArity > 0
    ensures InternalIdx(idx * Pow(internalArity, layerIdx + 1) * leafArity, layerIdx, leafArity, internalArity) == idx
  {
    InternalSpanPositive(leafArity, internalArity, layerIdx);
    var span := Pow(internalArity, layerIdx + 1) * leafArity;
    MulAssociative(idx, Pow(internalArity, layerIdx + 1), leafArity);
    DivUnique(idx * span, span, idx);
  }

  /** The node count after `rounds` trips round the layer loop. */
  function NodesAfter(n: nat, a: nat, rounds: nat): nat
    requires a > 0
  {
    if rounds == 0 then n else CeilDiv(NodesAfter(n, a, rounds - 1), a)
  }

  /** The layer loop reaches its exit, at most one node, for exactly these inputs. With
    * fan-in 1, which the manager's configuration accepts, two leaves already loop forever. */
  lemma LayerLoopTerminatesIff(n: nat, a: nat)
    requires a > 0
    ensures (exists rounds: nat :: NodesAfter(n, a, rounds) <= 1) <==> (a >= 2 || n <= 1)
  {
    if a >= 2 {
      NodesAfterLayers(n, a, 0);
      assert NodesAfter(n, a, LayersAbove(n, a)) <= 1;
    } else {
      forall rounds: nat ensures NodesAfter(n, a, rounds) == n {
        FanInOneNeverShrinks(n, rounds);
      }
      assert NodesAfter(n, a, 0) == n;
    }
  }

  lemma {:induction false} NodesAfterLayers(n: nat, a: nat, done: nat)
    requires a >= 2
    ensures NodesAfter(n, a, done + LayersAbove(NodesAfter(n, a, done), a)) <= 1
    decreases NodesAfter(n, a, done)
  {
    if NodesAfter(n, a, done) > 1 {
      CeilDivShrinks(NodesAfter(n, a, done), a);
      NodesAfterLayers(n, a, done + 1);
    }
  }

  lemma {:induction false} FanInOneNeverShrinks(n: nat, rounds: nat)
    ensures NodesAfter(n, 1, rounds) == n
  {
    if rounds > 0 {
      FanInOneNeverShrinks(n, rounds - 1);
    }
  }
}
