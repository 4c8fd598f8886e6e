/** The proof state as the object that `proof_state/result_handler.rs` updates in place. Each
  * handler is proved to do what `ProofDriver` says it does to the object's value. */
module ProofStateObject {
  import opened Arithmetic
  import opened Protocol
  import opened Recursion
  import opened ProofDriver

  class ProofState {
    const config: Config
    var status: Status
    var numSegments: Option<nat>
    var appProofs: map<nat, Payload>
    var leafProofs: map<nat, Piece>
    var internalProofs: map<(nat, nat), Piece>
    var evmProof: Option<Payload>
    var finalMerklePath: Option<Bytes>
    var depth0Merkle: Option<Bytes>
    var lastError: Option<(string, string)>
    var lateNoticeEmitted: bool

    function View(): State
      reads this
    {
      State(status, numSegments, appProofs, leafProofs, internalProofs, evmProof, finalMerklePath, depth0Merkle, lastError, lateNoticeEmitted)
    }

    constructor (config: Config)
      ensures this.config == config && View() == FRESH
    {
      this.config := config;
      status, numSegments, lateNoticeEmitted := InProgress, None, false;
      appProofs, leafProofs, internalProofs, evmProof := map[], map[], map[], None;
      finalMerklePath, depth0Merkle, lastError := None, None, None;
    }

    // ---- state.rs ----

    method IsReadyForFinalization() returns (ready: bool)
      requires config.Valid()
      ensures ready <==> ReadyForFinalization(config, View())
    {
      match config.proofType {
        case Stark =>
          if numSegments.None? {
            return false;
          }
          var layers := NumInternalLayersForLeafCount(CeilDiv(numSegments.value, config.leafArity), config.internalArity);
          ready := (Max(layers, 2) - 1, 0) in internalProofs;
        case Evm =>
          ready := evmProof.Some?;
      }
    }

    method IsSealedForResults() returns (isSealed: bool)
      requires config.Valid()
      ensures isSealed <==> Sealed(config, View())
    {
      var ready := IsReadyForFinalization();
      isSealed := !status.InProgress? || ready;
    }

    method MarkFailing(step: string, reason: string)
      requires config.Valid()
      modifies this
      ensures View() == ProofDriver.MarkFailing(config, old(View()), step, reason)
      ensures if old(Sealed(config, View())) then View() == old(View())
              else View() == old(View()).(status := Failing(reason), lastError := Some((step, reason)))
    {
      var isSealed := IsSealedForResults();
      if isSealed {
        return;
      }
      lastError := Some((step, reason));
      status := Failing(reason);
    }

    method TransitionFailingToFailed()
      modifies this
      ensures View() == FailingToFailed(old(View()))
    {
      if status.Failing? {
        status := Failed(status.reason);
      }
    }

    // ---- ExecuteE2 ----

    method FlushPendingLeafBatches() returns (requests: seq<Request>)
      requires config.Valid() && numSegments.Some?
      ensures requests == ProofDriver.FlushPendingLeafBatches(config, View())
    {
      var n, batchSize := numSegments.value, config.leafArity;
      var tailBatchSize := n % batchSize;
      DivBounds(n, batchSize);
      if tailBatchSize > 0 {
        var batchStart := n / batchSize * batchSize;
        if batchStart in leafProofs {
          return [];
        }
        var proofs := [];
        for i := batchStart to n
          invariant HasApps(View(), batchStart, i)
          invariant proofs == AppProofs(View(), batchStart, i)
        {
          if i !in appProofs {
            return [];
          }
          proofs := proofs + [appProofs[i]];
        }
        return [LeafRequest(proofs, batchStart, n - 1)];
      }
      requests := [];
    }

    method BuildDeferralTailDispatch(finalLayerIdx: nat) returns (tail: Option<DeferralTail>)
      requires config.Valid()
      ensures tail == DeferralTailFor(config, View(), finalLayerIdx)
    {
      if config.deferralCircuits == 0 || numSegments.None? {
        return None;
      }
      var numLeafProofs := CeilDiv(numSegments.value, config.leafArity);
      var layers := NumInternalLayersForLeafCount(numLeafProofs, config.internalArity);
      var total := 0;
      for layer := 0 to Max(layers, 2)
        invariant total == TotalInternalProofs(numLeafProofs, config.internalArity, layer)
      {
        var count := NumProofsAtInternalLayer(numLeafProofs, layer, config.internalArity);
        total := total + Max(count, 1);
      }
      var path := if finalMerklePath.Some? then finalMerklePath.value else [];
      tail := Some(DeferralTail(Max(finalLayerIdx, 1), Max(total - 1, 0), path));
    }

    /** The children `[lo, hi)` of one tail group, or nothing if one is missing. */
    method CollectTailChildren(layer: nat, lo: nat, hi: nat) returns (proofs: seq<Payload>, segmentEnd: nat, complete: bool)
      requires lo < hi
      ensures complete <==> HasTailChildren(config, View(), layer, lo, hi)
      ensures complete ==> proofs == TailChildren(config, View(), layer, lo, hi) && segmentEnd == TailEnd(config, View(), layer, lo, hi)
    {
      proofs, segmentEnd := [], 0;
      for idx := lo to hi
        invariant HasTailChildren(config, View(), layer, lo, idx)
        invariant proofs == TailChildren(config, View(), layer, lo, idx)
        invariant idx > lo ==> segmentEnd == TailEnd(config, View(), layer, lo, idx)
      {
        if layer == 0 {
          var key := LeafKey(config, idx);
          if key !in leafProofs {
            return proofs, segmentEnd, false;
          }
          proofs, segmentEnd := proofs + [leafProofs[key].proof], leafProofs[key].segmentEnd;
        } else {
          var key := InternalKey(layer - 1, idx);
          if key !in internalProofs {
            return proofs, segmentEnd, false;
          }
          proofs, segmentEnd := proofs + [internalProofs[key].proof], internalProofs[key].segmentEnd;
        }
      }
      complete := true;
    }

    method TailProofAt(layer: nat, numLeafProofs: nat, finalLayer: nat) returns (requests: seq<Request>)
      requires config.Valid() && numSegments.Some?
      requires numLeafProofs == CeilDiv(numSegments.value, config.leafArity) && finalLayer == config.FinalLayer(numSegments.value)
      ensures requests == TailProof(config, View(), layer)
    {
      hide CeilDiv, HasTailChildren, TailChildren, TailEnd, Config.FinalLayer, DeferralTailFor, Pow, ProofsAtLayer;
      var numProofs := numLeafProofs;
      if layer > 0 {
        numProofs := NumProofsAtInternalLayer(numLeafProofs, layer - 1, config.internalArity);
      }
      var tail := numProofs % config.internalArity;
      if tail == 0 || InternalKey(layer, numProofs / config.internalArity) in internalProofs {
        return [];
      }
      hide ChildCount;
      requests := TailRequest(layer, numProofs - tail, numProofs, layer == finalLayer);
    }

    method TailRequest(layer: nat, start: nat, end: nat, isFinal: bool) returns (requests: seq<Request>)
      requires config.Valid() && start < end
      ensures requests == if HasTailChildren(config, View(), layer, start, end)
                          then [InternalRequest(TailChildren(config, View(), layer, start, end), layer,
                                                start * Pow(config.internalArity, layer) * config.leafArity,
                                                TailEnd(config, View(), layer, start, end), isFinal,
                                                if isFinal then DeferralTailFor(config, View(), layer) else None,
                                                if isFinal then depth0Merkle else None)]
                          else []
    {
      hide HasTailChildren, TailChildren, TailEnd, DeferralTailFor, Pow;
      var proofs, segmentEnd, complete := CollectTailChildren(layer, start, end);
      if !complete {
        return [];
      }
      var segmentStart := TailSegmentStart(layer, start);
      var deferralTail := None;
      if isFinal {
        deferralTail := BuildDeferralTailDispatch(layer);
      }
      requests := [InternalRequest(proofs, layer, segmentStart, segmentEnd, isFinal, deferralTail, if isFinal then depth0Merkle else None)];
    }

    method TailSegmentStart(layer: nat, start: nat) returns (segmentStart: nat)
      ensures segmentStart == start * Pow(config.internalArity, layer) * config.leafArity
    {
      if layer == 0 {
        assert Pow(config.internalArity, 0) == 1;
        segmentStart := start * config.leafArity;
      } else {
        segmentStart := SegmentStartOfInternalProof(config.leafArity, config.internalArity, layer - 1, start);
      }
    }

    method TriggerTailProofs() returns (requests: seq<Request>)
      requires config.Valid() && numSegments.Some?
      ensures requests == ProofDriver.TriggerTailProofs(config, View())
    {
      var numLeafProofs := CeilDiv(numSegments.value, config.leafArity);
      var layers := NumInternalLayersForLeafCount(numLeafProofs, config.internalArity);
      requests := [];
      for layer := 0 to layers
        invariant requests == TailProofs(config, View(), layer)
      {
        var more := TailProofAt(layer, numLeafProofs, Max(layers, 2) - 1);
        requests := requests + more;
      }
    }

    method HandleExecuteE2Result(n: nat) returns (requests: seq<Request>)
      requires config.Valid()
      modifies this
      ensures (View(), requests) == HandleExecuteE2(config, old(View()), n)
    {
      if numSegments.Some? {
        return [];
      }
      if n == 0 {
        status := Failing("ExecuteE2 returned 0 segments");
        return [];
      }
      numSegments := Some(n);
      requests := FlushPendingLeafBatches();
      var tails := TriggerTailProofs();
      requests := requests + tails;
    }

    // ---- app results ----

    method HandleAppResult(app: AppState) returns (requests: seq<Request>)
      requires config.Valid()
      modifies this
      ensures (View(), requests) == HandleApp(config, old(View()), app)
    {
      if app.proof.None? {
        status := Failing("AppProof missing proof data");
        return [];
      }
      if numSegments.Some? && app.segmentIdx >= numSegments.value {
        return [];
      }
      var duplicate := app.segmentIdx in appProofs;
      appProofs := appProofs[app.segmentIdx := app.proof.value];
      if duplicate {
        return [];
      }
      if app.finalMerklePath.Some? && finalMerklePath.None? {
        finalMerklePath := app.finalMerklePath;
      }
      if app.depth0Merkle.Some? && depth0Merkle.None? {
        depth0Merkle := app.depth0Merkle;
      }
      hide BatchStart, HasApps, AppProofs;
      var batchStart := BatchStart(config, app.segmentIdx);
      var batchEnd := batchStart + config.leafArity - 1;
      if numSegments.Some? {
        batchEnd := Min(batchEnd, numSegments.value - 1);
      }
      requests := CollectBatch(batchStart, batchEnd);
    }

    /** The leaf request for apps `batchStart ..= batchEnd`, if all are here. */
    method CollectBatch(batchStart: nat, batchEnd: int) returns (requests: seq<Request>)
      ensures requests == if batchStart <= batchEnd && HasApps(View(), batchStart, batchEnd + 1)
                          then [LeafRequest(AppProofs(View(), batchStart, batchEnd + 1), batchStart, batchEnd)] else []
    {
      if batchStart > batchEnd {
        return [];
      }
      var proofs := [];
      for i := batchStart to batchEnd + 1
        invariant HasApps(View(), batchStart, i)
        invariant proofs == AppProofs(View(), batchStart, i)
      {
        if i !in appProofs {
          return [];
        }
        proofs := proofs + [appProofs[i]];
      }
      requests := [LeafRequest(proofs, batchStart, batchEnd)];
    }

    // ---- leaf results ----

    method HandleLeafResult(leaf: LeafState) returns (requests: seq<Request>)
      requires config.Valid()
      modifies this
      ensures (View(), requests) == HandleLeaf(config, old(View()), leaf)
    {
      if leaf.proof.None? {
        status := Failing("LeafProof missing proof data");
        return [];
      }
      if numSegments.Some? && (leaf.segmentStart >= numSegments.value || leaf.segmentEnd >= numSegments.value) {
        return [];
      }
      var duplicate := leaf.segmentStart in leafProofs;
      leafProofs := leafProofs[leaf.segmentStart := Piece(leaf.segmentStart, leaf.segmentEnd, leaf.proof.value)];
      if duplicate {
        return [];
      }
      requests := CollectLeafGroup(leaf.segmentStart);
    }

    method CollectLeafGroup(segmentStart: nat) returns (requests: seq<Request>)
      requires config.Valid()
      ensures requests == LeafFollowUps(config, View(), segmentStart)
    {
      hide GroupStart, HasLeaves, LeafProofs, LeafKey, CeilDiv;
      var leafIdx := segmentStart / config.leafArity;
      var first := GroupStart(config, leafIdx);
      var end := first + config.internalArity;
      if numSegments.Some? {
        end := Min(end, CeilDiv(numSegments.value, config.leafArity));
      }
      if first >= end {
        return [];
      }
      requests := CollectLeaves(first, end);
    }

    method CollectLeaves(first: nat, end: nat) returns (requests: seq<Request>)
      requires first < end
      ensures requests == if HasLeaves(config, View(), first, end)
                          then [InternalRequest(LeafProofs(config, View(), first, end), 0, LeafKey(config, first),
                                                leafProofs[LeafKey(config, end - 1)].segmentEnd, false, None, None)] else []
    {
      hide LeafKey;
      var proofs, segmentEnd := [], 0;
      for i := first to end
        invariant HasLeaves(config, View(), first, i)
        invariant proofs == LeafProofs(config, View(), first, i)
        invariant i > first ==> segmentEnd == leafProofs[LeafKey(config, i - 1)].segmentEnd
      {
        if LeafKey(config, i) !in leafProofs {
          return [];
        }
        proofs, segmentEnd := proofs + [leafProofs[LeafKey(config, i)].proof], leafProofs[LeafKey(config, i)].segmentEnd;
      }
      requests := [InternalRequest(proofs, 0, LeafKey(config, first), segmentEnd, false, None, None)];
    }

    // ---- internal results ----

    method HandleInternalResult(r: InternalState) returns (reply: Reply)
      requires config.Valid()
      modifies this
      ensures (View(), reply) == HandleInternal(config, old(View()), r)
    {
      if r.proof.None? {
        status := Failing("InternalProof missing proof data");
        return Requests([]);
      }
      if numSegments.Some? && (r.segmentStart >= numSegments.value || r.segmentEnd >= numSegments.value) {
        return Requests([]);
      }
      var idx := SegmentStartToInternalIdx(r.segmentStart, r.layerIdx, config.leafArity, config.internalArity);
      var key := InternalKey(r.layerIdx, idx);
      var duplicate := key in internalProofs;
      internalProofs := internalProofs[key := Piece(r.segmentStart, r.segmentEnd, r.proof.value)];
      if duplicate {
        return Requests([]);
      }
      reply := PromoteInternal(r, idx);
    }

    method PromoteInternal(r: InternalState, idx: nat) returns (reply: Reply)
      requires config.Valid() && r.proof.Some?
      requires idx == InternalIdx(r.segmentStart, r.layerIdx, config.leafArity, config.internalArity)
      requires numSegments.Some? ==> r.segmentStart < numSegments.value
      ensures reply == InternalFollowUps(config, View(), r, idx)
    {
      hide GroupStart, NextInternal, InternalIdx, NumInternalLayers, ProofsAtLayer, Config.FinalLayer;
      if numSegments.Some? {
        reply := PromoteWithCount(r, idx);
      } else {
        var first := GroupStart(config, idx);
        var requests := CollectInternalGroup(r.layerIdx, first, first + config.internalArity, false);
        reply := Requests(requests);
      }
    }

    method PromoteWithCount(r: InternalState, idx: nat) returns (reply: Reply)
      requires config.Valid() && r.proof.Some?
      requires idx == InternalIdx(r.segmentStart, r.layerIdx, config.leafArity, config.internalArity)
      requires numSegments.Some? && r.segmentStart < numSegments.value
      ensures reply == InternalFollowUps(config, View(), r, idx)
    {
      hide GroupStart, CeilDiv, NextInternal, DeferralTailFor, InternalIdx, NumInternalLayers, ProofsAtLayer, Pow;
      var layer, first := r.layerIdx, GroupStart(config, idx);
      var numLeafProofs := CeilDiv(numSegments.value, config.leafArity);
      var layers := NumInternalLayersForLeafCount(numLeafProofs, config.internalArity);
      var final := Max(layers, 2) - 1;
      assert final == config.FinalLayer(numSegments.value);
      hide Config.FinalLayer;
      if layer == final {
        if config.proofType.Evm? {
          if !r.readyForEvm {
            return Refused("Evm proof reached the final internal layer without a ready-for-evm proof");
          }
          return Requests([EvmRequest(r.proof.value, r.merkle, config.deferralCircuits > 0)]);
        }
        return Requests([]);
      }
      if layers == layer + 1 && layers == 1 {
        var wrapTail := BuildDeferralTailDispatch(layer + 1);
        return Requests([InternalRequest([r.proof.value], layer + 1, r.segmentStart, r.segmentEnd, true, wrapTail, depth0Merkle)]);
      }
      var count := NumProofsAtInternalLayer(numLeafProofs, layer, config.internalArity);
      if count == 0 {
        return Requests([]);
      }
      IndexInsideLayer(config, numSegments.value, r.segmentStart, layer);
      var end := Min(first + config.internalArity, count);
      var requests := CollectInternalGroup(layer, first, end, layer + 1 == final);
      reply := Requests(requests);
    }

    method CollectInternalGroup(layer: nat, first: nat, end: nat, isFinal: bool) returns (requests: seq<Request>)
      requires config.Valid() && first < end
      ensures requests == NextInternal(config, View(), layer, first, end, isFinal)
    {
      var proofs, segmentStart, segmentEnd := [], 0, 0;
      for i := first to end
        invariant HasInternals(View(), layer, first, i)
        invariant proofs == InternalProofs(View(), layer, first, i)
        invariant i == first ==> segmentEnd == 0
        invariant i > first ==> segmentStart == MinStart(View(), layer, first, i) && segmentEnd == MaxEnd(View(), layer, first, i)
      {
        var key := InternalKey(layer, i);
        if key !in internalProofs {
          return [];
        }
        var piece := internalProofs[key];
        proofs := proofs + [piece.proof];
        segmentStart := if i == first then piece.segmentStart else Min(segmentStart, piece.segmentStart);
        segmentEnd := Max(segmentEnd, piece.segmentEnd);
      }
      var tail := None;
      if isFinal {
        tail := BuildDeferralTailDispatch(layer + 1);
      }
      requests := [InternalRequest(proofs, layer + 1, segmentStart, segmentEnd, isFinal, tail, if isFinal then depth0Merkle else None)];
    }

    // ---- the EVM result ----

    method HandleHalo2Result(evm: Option<Payload>)
      requires config.Valid()
      modifies this
      ensures (View(), []) == HandleEvm(config, old(View()), evm)
    {
      if !config.proofType.Evm? {
        status := Failing("received Evm result for a Stark proof");
        return;
      }
      if evm.None? {
        status := Failing("Evm result missing proof bytes");
        return;
      }
      if evmProof.Some? {
        return;
      }
      evmProof := evm;
    }

    // ---- one result ----

    method HandleProofResult(r: ProofResult) returns (reply: Reply)
      requires config.Valid()
      modifies this
      ensures (View(), reply) == ProofDriver.HandleProofResult(config, old(View()), r)
    {
      var isSealed := IsSealedForResults();
      if isSealed {
        return Requests([]);
      }
      hide Sealed, HandleApp, HandleLeaf, HandleInternal, HandleEvm, HandleExecuteE2;
      var requests := [];
      match r {
        case ErrorResult(step, error) =>
          lastError := Some((step, error));
          status := Failing("step '" + step + "' failed: " + error);
        case ExecuteE2Result(cost, n) =>
          if cost > config.costLimit {
            status := Failing("ExecuteE2 cost exceeds cost limit");
          } else {
            requests := HandleExecuteE2Result(n);
          }
        case AppResult(app) => requests := HandleAppResult(app);
        case LeafResult(leaf) => requests := HandleLeafResult(leaf);
        case InternalResult(internal) =>
          reply := HandleInternalResult(internal);
          return;
        case EvmResult(evm) => HandleHalo2Result(evm);
      }
      reply := Requests(requests);
    }

    method HandleProofResultWithEnvelopeOutcome(r: ProofResult) returns (outcome: Outcome)
      requires config.Valid()
      modifies this
      ensures (View(), outcome) == HandleEnvelope(config, old(View()), r)
    {
      hide ProofDriver.HandleProofResult;
      var isSealed := IsSealedForResults();
      if isSealed {
        var shouldLogNotice := !lateNoticeEmitted;
        lateNoticeEmitted := true;
        return Late(shouldLogNotice, status);
      }
      var reply := HandleProofResult(r);
      match reply {
        case Refused(error) => outcome := HandlerError(error);
        case Requests(requests) =>
          var sealsNow := IsSealedForResults();
          outcome := Processed(requests, sealsNow);
      }
    }

    // ---- handlers.rs: the status changes made under the proof lock ----

    /** The locked part of `cancel_proof`. */
    method Cancel()
      requires config.Valid()
      modifies this
      ensures View() == ProofDriver.Cancel(config, old(View()))
      ensures View() == if old(Sealed(config, View())) then old(View()) else old(View()).(status := Canceled)
    {
      var ready := IsReadyForFinalization();
      if status.InProgress? && !ready {
        status := Canceled;
      }
    }

    /** The locked part of `finalize_proof`; `persisted` is what saving the artifact returns, if
      * a directory is configured. */
    method Finalize(persisted: Option<bool>)
      requires config.Valid()
      modifies this
      ensures View() == ProofDriver.Finalize(config, old(View()), persisted)
    {
      var ready := IsReadyForFinalization();
      if status.InProgress? && ready {
        if persisted == Some(false) {
          status := Failed("persist final proof");
        } else {
          status := Completed;
        }
      }
    }
  }
}
