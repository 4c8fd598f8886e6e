/** When a result fails the proof, is refused, is ignored, or repeats an earlier one: for every
  * unsealed state and every result, whether or not a run could produce them. */
module ResultRules {
  import opened Arithmetic
  import opened Protocol
  import opened Recursion
  import opened ProofDriver

  ghost predicate SameTree(s: State, s': State) {
    && s'.numSegments == s.numSegments && s'.apps == s.apps && s'.leaves == s.leaves && s'.internals == s.internals
    && s'.evm == s.evm && s'.finalMerklePath == s.finalMerklePath && s'.depth0Merkle == s.depth0Merkle
  }

  ghost predicate Fails(c: Config, s: State, r: ProofResult) {
    match r
    case ErrorResult(_, _) => true
    case ExecuteE2Result(cost, n) => cost > c.costLimit || (s.numSegments.None? && n == 0)
    case AppResult(app) => app.proof.None?
    case LeafResult(leaf) => leaf.proof.None?
    case InternalResult(internal) => internal.proof.None?
    case EvmResult(evm) => !c.proofType.Evm? || evm.None?
  }

  ghost predicate OutOfRange(s: State, r: ProofResult) {
    s.numSegments.Some? &&
    match r
    case AppResult(app) => app.segmentIdx >= s.numSegments.value
    case LeafResult(leaf) => leaf.segmentStart >= s.numSegments.value || leaf.segmentEnd >= s.numSegments.value
    case InternalResult(x) => x.segmentStart >= s.numSegments.value || x.segmentEnd >= s.numSegments.value
    case _ => false
  }

  ghost predicate Repeats(c: Config, s: State, r: ProofResult)
    requires c.Valid()
  {
    match r
    case ErrorResult(_, _) => false
    case ExecuteE2Result(_, _) => s.numSegments.Some?
    case AppResult(app) => app.segmentIdx in s.apps
    case LeafResult(leaf) => leaf.segmentStart in s.leaves
    case InternalResult(x) => (x.layerIdx, InternalIdx(x.segmentStart, x.layerIdx, c.leafArity, c.internalArity)) in s.internals
    case EvmResult(_) => s.evm.Some?
  }

  /** The EVM hand-off is missing: a first final internal proof of an EVM run that is not ready. */
  ghost predicate LacksHandOff(c: Config, s: State, r: ProofResult)
    requires c.Valid()
  {
    && r.InternalResult? && c.proofType.Evm? && s.numSegments.Some?
    && r.internal.layerIdx == c.FinalLayer(s.numSegments.value) && !r.internal.readyForEvm
  }

  /** A result makes the proof failing if and only if it is one of the failing kinds; then the tree
    * is untouched, nothing is asked for, and the proof is sealed. */
  lemma ResultFailsIff(c: Config, s: State, r: ProofResult)
    requires c.Valid() && !Sealed(c, s)
    ensures var (s', o) := HandleEnvelope(c, s, r);
            && (s'.status.Failing? <==> Fails(c, s, r)) && (!Fails(c, s, r) ==> s'.status == s.status)
            && (Fails(c, s, r) ==> SameTree(s, s') && o == Processed([], true))
  {
    assert s.status.InProgress?;
    FailingIsSealed(c, HandleEnvelope(c, s, r).0);
    HandlerFailsIff(c, s, r);
    hide Sealed, HandleProofResult, Fails, SameTree;
  }

  lemma HandlerFailsIff(c: Config, s: State, r: ProofResult)
    requires c.Valid() && !Sealed(c, s) && s.status.InProgress?
    ensures var (s', reply) := HandleProofResult(c, s, r);
            && s'.lateNoticeEmitted == s.lateNoticeEmitted
            && (if Fails(c, s, r) then s'.status.Failing? && SameTree(s, s') && reply == Requests([]) else s'.status == s.status)
  {
    hide Sealed, HandleApp, HandleLeaf, HandleInternal, HandleEvm, HandleExecuteE2;
    match r
    case ErrorResult(_, _) =>
    case ExecuteE2Result(_, n) => CountFailsIff(c, s, n);
    case AppResult(app) => AppFailsIff(c, s, app);
    case LeafResult(leaf) => LeafFailsIff(c, s, leaf);
    case InternalResult(x) => InternalFailsIff(c, s, x);
    case EvmResult(evm) => EvmFailsIff(c, s, evm);
  }

  lemma CountFailsIff(c: Config, s: State, n: nat)
    requires c.Valid()
    ensures var (s', f) := HandleExecuteE2(c, s, n);
            s'.lateNoticeEmitted == s.lateNoticeEmitted &&
            if s.numSegments.None? && n == 0 then s'.status.Failing? && SameTree(s, s') && f == [] else s'.status == s.status
  {
    hide FlushPendingLeafBatches, TriggerTailProofs;
  }

  lemma EvmFailsIff(c: Config, s: State, evm: Option<Payload>)
    requires c.Valid()
    ensures var (s', f) := HandleEvm(c, s, evm);
            s'.lateNoticeEmitted == s.lateNoticeEmitted &&
            if !c.proofType.Evm? || evm.None? then s'.status.Failing? && SameTree(s, s') && f == [] else s'.status == s.status
  {
  }

  lemma AppFailsIff(c: Config, s: State, app: AppState)
    requires c.Valid()
    ensures var (s', f) := HandleApp(c, s, app);
            s'.lateNoticeEmitted == s.lateNoticeEmitted &&
            if app.proof.None? then s'.status.Failing? && SameTree(s, s') && f == [] else s'.status == s.status
  {
    hide AppFollowUps;
  }

  lemma LeafFailsIff(c: Config, s: State, leaf: LeafState)
    requires c.Valid()
    ensures var (s', f) := HandleLeaf(c, s, leaf);
            s'.lateNoticeEmitted == s.lateNoticeEmitted &&
            if leaf.proof.None? then s'.status.Failing? && SameTree(s, s') && f == [] else s'.status == s.status
  {
    hide LeafFollowUps;
  }

  lemma InternalFailsIff(c: Config, s: State, x: InternalState)
    requires c.Valid()
    ensures var (s', reply) := HandleInternal(c, s, x);
            s'.lateNoticeEmitted == s.lateNoticeEmitted &&
            if x.proof.None? then s'.status.Failing? && SameTree(s, s') && reply == Requests([]) else s'.status == s.status
  {
    hide InternalFollowUps, InternalIdx;
  }

  lemma FailingIsSealed(c: Config, s: State)
    requires c.Valid()
    ensures s.status.Failing? ==> Sealed(c, s)
  {
  }

  /** A result outside the known range leaves the state as it was and asks for nothing. */
  lemma OutOfRangeIgnored(c: Config, s: State, r: ProofResult)
    requires c.Valid() && !Sealed(c, s) && OutOfRange(s, r) && !Fails(c, s, r)
    ensures HandleEnvelope(c, s, r) == (s, Processed([], false))
  {
    hide ReadyForFinalization, InternalFollowUps, LeafFollowUps, AppFollowUps;
  }

  /** A repeated result asks for nothing, and leaves the set of stored nodes as it was. */
  lemma RepeatAsksNothing(c: Config, s: State, r: ProofResult)
    requires c.Valid() && !Sealed(c, s) && Repeats(c, s, r) && !Fails(c, s, r)
    ensures var (s', o) := HandleEnvelope(c, s, r);
            && o.Processed? && o.followUps == [] && s'.numSegments == s.numSegments && s'.evm == s.evm
            && s'.apps.Keys == s.apps.Keys && s'.leaves.Keys == s.leaves.Keys && s'.internals.Keys == s.internals.Keys
            && s'.finalMerklePath == s.finalMerklePath && s'.depth0Merkle == s.depth0Merkle
  {
    hide Sealed, InternalFollowUps, LeafFollowUps, AppFollowUps, FlushPendingLeafBatches, TriggerTailProofs, InternalIdx;
  }

  /** It replaces what was stored for its node: the last one is kept. Of the EVM artifact, and of the
    * merkle bytes above, the first is. */
  lemma RepeatReplaces(c: Config, s: State, r: ProofResult)
    requires c.Valid() && !Sealed(c, s) && Repeats(c, s, r) && !Fails(c, s, r) && !OutOfRange(s, r)
    ensures var s' := HandleEnvelope(c, s, r).0;
            match r
            case AppResult(app) => s' == s.(apps := s.apps[app.segmentIdx := app.proof.value])
            case LeafResult(x) => s' == s.(leaves := s.leaves[x.segmentStart := Piece(x.segmentStart, x.segmentEnd, x.proof.value)])
            case InternalResult(x) =>
              var key := (x.layerIdx, InternalIdx(x.segmentStart, x.layerIdx, c.leafArity, c.internalArity));
              s' == s.(internals := s.internals[key := Piece(x.segmentStart, x.segmentEnd, x.proof.value)])
            case _ => s' == s
  {
    hide Sealed, InternalFollowUps, LeafFollowUps, AppFollowUps, FlushPendingLeafBatches, TriggerTailProofs, InternalIdx;
  }

  /** The range of a next request spans all of the ranges its children reported, and is no wider. */
  lemma {:induction false} ScanSpansChildren(s: State, layer: nat, lo: nat, hi: nat)
    requires lo < hi && HasInternals(s, layer, lo, hi)
    ensures forall i: nat {:trigger InternalKey(layer, i)} :: lo <= i < hi ==>
              MinStart(s, layer, lo, hi) <= s.internals[InternalKey(layer, i)].segmentStart
              && s.internals[InternalKey(layer, i)].segmentEnd <= MaxEnd(s, layer, lo, hi)
    ensures exists i: nat {:trigger InternalKey(layer, i)} :: lo <= i < hi && s.internals[InternalKey(layer, i)].segmentStart == MinStart(s, layer, lo, hi)
    ensures exists i: nat {:trigger InternalKey(layer, i)} :: lo <= i < hi && s.internals[InternalKey(layer, i)].segmentEnd == MaxEnd(s, layer, lo, hi)
    decreases hi
  {
    assert InternalKey(layer, hi - 1) in s.internals;
    if hi > lo + 1 {
      ScanSpansChildren(s, layer, lo, hi - 1);
    }
  }

  /** A result for a layer above the final one is stored, if new, and asks for nothing. */
  lemma AboveTopAsksNothing(c: Config, s: State, x: InternalState)
    requires c.Valid() && !Sealed(c, s) && s.numSegments.Some? && x.layerIdx > c.FinalLayer(s.numSegments.value)
    requires x.proof.Some? && !OutOfRange(s, InternalResult(x))
    ensures HandleInternal(c, s, x).1 == Requests([])
  {
    var n := CeilDiv(s.numSegments.value, c.leafArity);
    NothingAboveTop(n, x.layerIdx, c.internalArity);
    hide InternalIdx, NextInternal, GroupStart, DeferralTailFor, CeilDiv, NumInternalLayers, ProofsAtLayer;
  }

  lemma NothingAboveTop(n: nat, layer: nat, a: nat)
    requires a >= 2 && layer > Max(NumInternalLayers(n, a), 2) - 1
    ensures ProofsAtLayer(n, layer, a) == 0
  {
    if n >= 2 {
      ProofsAtLayerClosedForm(n, layer, a);
    }
    hide Pow;
  }

  /** A result is refused with an error if and only if it is a new final internal proof of an EVM
    * run that was not handed off ready for the EVM step; it is stored all the same. */
  lemma RefusedIff(c: Config, s: State, r: ProofResult)
    requires c.Valid() && !Sealed(c, s)
    ensures var (s', o) := HandleEnvelope(c, s, r);
            && (o.HandlerError? <==> !Fails(c, s, r) && !OutOfRange(s, r) && !Repeats(c, s, r) && LacksHandOff(c, s, r))
            && !o.Late?
            && (o.HandlerError? ==> |s'.internals| == |s.internals| + 1)
  {
    hide Sealed, LeafFollowUps, AppFollowUps, FlushPendingLeafBatches, TriggerTailProofs, InternalIdx, NextInternal;
    hide Config.FinalLayer, ProofsAtLayer, NumInternalLayers, DeferralTailFor, CeilDiv, GroupStart;
  }
}
