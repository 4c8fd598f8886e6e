/** What each worker result does to a proof's recursion tree (`proof_state/state.rs`,
  * `proof_state/result_handler.rs`), as functions on values. `ProofStateObject` is
  * the in-place version proved against these. */
module ProofDriver {
  import opened Arithmetic
  import opened Protocol
  import opened Recursion
  import opened TreePlan

  datatype Status = InProgress | Completed | Failing(reason: string) | Failed(reason: string) | Canceled

  /** A stored leaf or internal proof with the segment range it was reported for. */
  datatype Piece = Piece(segmentStart: nat, segmentEnd: nat, proof: Payload)

  /** Per-proof configuration, fixed at `start_proof`. */
  datatype Config = Config(proofType: ProofType, costLimit: nat, leafArity: nat, internalArity: nat, deferralCircuits: nat) {
    predicate Valid() {
      leafArity >= 1 && internalArity >= 2
    }

    /** Layer of the final internal proof: a one-layer tree is wrapped once more. */
    function FinalLayer(numSegments: nat): nat
      requires Valid()
    {
      Max(NumInternalLayers(CeilDiv(numSegments, leafArity), internalArity), 2) - 1
    }
  }

  /** `numSegments` is set together with the ExecuteE2 state and stands for both. */
  datatype State = State(
    status: Status,
    numSegments: Option<nat>,
    apps: map<nat, Payload>,
    leaves: map<nat, Piece>,
    internals: map<(nat, nat), Piece>,
    evm: Option<Payload>,
    finalMerklePath: Option<Bytes>,
    depth0Merkle: Option<Bytes>,
    lastError: Option<(string, string)>,
    lateNoticeEmitted: bool)

  const FRESH: State := State(InProgress, None, map[], map[], map[], None, None, None, None, false)

  datatype Reply = Requests(requests: seq<Request>) | Refused(error: string)

  datatype Outcome =
    | Late(shouldLogNotice: bool, status: Status)
    | Processed(followUps: seq<Request>, sealed: bool)
    | HandlerError(error: string)

  // ---- sealing ----

  function FinalInternal(c: Config, s: State): Option<Piece>
    requires c.Valid()
  {
    if s.numSegments.None? then None
    else
      var key := (c.FinalLayer(s.numSegments.value), 0);
      if key in s.internals then Some(s.internals[key]) else None
  }

  predicate ReadyForFinalization(c: Config, s: State)
    requires c.Valid()
  {
    match c.proofType
    case Stark => FinalInternal(c, s).Some?
    case Evm => s.evm.Some?
  }

  predicate Sealed(c: Config, s: State)
    requires c.Valid()
  {
    !s.status.InProgress? || ReadyForFinalization(c, s)
  }

  /** The payload that finalization persists. */
  function FinalArtifact(c: Config, s: State): Option<Payload>
    requires c.Valid()
  {
    match c.proofType
    case Stark => (match FinalInternal(c, s) case Some(x) => Some(x.proof) case None => None)
    case Evm => s.evm
  }

  /** `mark_failing`, and `mark_timed_out` with its own step name. */
  function MarkFailing(c: Config, s: State, step: string, reason: string): State
    requires c.Valid()
  {
    if Sealed(c, s) then s
    else s.(status := Failing(reason), lastError := Some((step, reason)))
  }

  function FailingToFailed(s: State): State {
    if s.status.Failing? then s.(status := Failed(s.status.reason)) else s
  }

  /** `cancel_proof`, on the proof state. */
  function Cancel(c: Config, s: State): State
    requires c.Valid()
  {
    if s.status.InProgress? && !ReadyForFinalization(c, s) then s.(status := Canceled) else s
  }

  /** The locked section of `finalize_proof`: `persisted` is what saving the artifact
    * returned, `None` where no directory is configured. */
  function Finalize(c: Config, s: State, persisted: Option<bool>): State
    requires c.Valid()
  {
    if s.status.InProgress? && ReadyForFinalization(c, s) then
      if persisted == Some(false) then s.(status := Failed("persist final proof")) else s.(status := Completed)
    else s
  }

  // ---- app results ----

  function BatchStart(c: Config, segment: nat): nat
    requires c.Valid()
  {
    (segment / c.leafArity) * c.leafArity
  }

  /** One past the last segment of the batch, cut at the segment count once it is known. */
  function BatchEnd(c: Config, s: State, segment: nat): nat
    requires c.Valid()
  {
    var end := BatchStart(c, segment) + c.leafArity;
    if s.numSegments.Some? then Min(end, s.numSegments.value) else end
  }

  predicate HasApps(s: State, lo: nat, hi: nat) {
    forall i :: lo <= i < hi ==> i in s.apps
  }

  function AppProofs(s: State, lo: nat, hi: nat): seq<Payload>
    requires lo <= hi && HasApps(s, lo, hi)
  {
    seq(hi - lo, i requires 0 <= i < hi - lo => s.apps[lo + i])
  }

  function AppFollowUps(c: Config, s: State, segment: nat): seq<Request>
    requires c.Valid()
  {
    var lo, hi := BatchStart(c, segment), BatchEnd(c, s, segment);
    if lo < hi && HasApps(s, lo, hi) then [LeafRequest(AppProofs(s, lo, hi), lo, hi - 1)] else []
  }

  function KeepFirst<T>(held: Option<T>, offered: Option<T>): Option<T> {
    if held.Some? then held else offered
  }

  function HandleApp(c: Config, s: State, app: AppState): (State, seq<Request>)
    requires c.Valid()
  {
    if app.proof.None? then (s.(status := Failing("AppProof missing proof data")), [])
    else if s.numSegments.Some? && app.segmentIdx >= s.numSegments.value then (s, [])
    else
      var stored := s.(apps := s.apps[app.segmentIdx := app.proof.value]);
      if app.segmentIdx in s.apps then (stored, [])
      else
        var s' := stored.(finalMerklePath := KeepFirst(s.finalMerklePath, app.finalMerklePath),
                          depth0Merkle := KeepFirst(s.depth0Merkle, app.depth0Merkle));
        (s', AppFollowUps(c, s', app.segmentIdx))
  }

  // ---- leaf results ----

  predicate HasLeaves(c: Config, s: State, lo: nat, hi: nat) {
    forall i: nat {:trigger LeafKey(c, i)} :: lo <= i < hi ==> LeafKey(c, i) in s.leaves
  }

  function LeafKey(c: Config, i: nat): nat {
    i * c.leafArity
  }

  function LeafProofs(c: Config, s: State, lo: nat, hi: nat): seq<Payload>
    requires lo <= hi && HasLeaves(c, s, lo, hi)
  {
    seq(hi - lo, i requires 0 <= i < hi - lo => s.leaves[LeafKey(c, lo + i)].proof)
  }

  function GroupStart(c: Config, idx: nat): nat
    requires c.Valid()
  {
    (idx / c.internalArity) * c.internalArity
  }

  /** One past the last leaf of the group of leaf `idx`. */
  function LeafGroupEnd(c: Config, s: State, idx: nat): nat
    requires c.Valid()
  {
    var end := GroupStart(c, idx) + c.internalArity;
    if s.numSegments.Some? then Min(end, CeilDiv(s.numSegments.value, c.leafArity)) else end
  }

  function LeafFollowUps(c: Config, s: State, segmentStart: nat): seq<Request>
    requires c.Valid()
  {
    var idx := segmentStart / c.leafArity;
    var lo, hi := GroupStart(c, idx), LeafGroupEnd(c, s, idx);
    if lo < hi && HasLeaves(c, s, lo, hi) then
      [InternalRequest(LeafProofs(c, s, lo, hi), 0, LeafKey(c, lo), s.leaves[LeafKey(c, hi - 1)].segmentEnd, false, None, None)]
    else []
  }

  function HandleLeaf(c: Config, s: State, leaf: LeafState): (State, seq<Request>)
    requires c.Valid()
  {
    if leaf.proof.None? then (s.(status := Failing("LeafProof missing proof data")), [])
    else if s.numSegments.Some? && (leaf.segmentStart >= s.numSegments.value || leaf.segmentEnd >= s.numSegments.value) then (s, [])
    else
      var s' := s.(leaves := s.leaves[leaf.segmentStart := Piece(leaf.segmentStart, leaf.segmentEnd, leaf.proof.value)]);
      (s', if leaf.segmentStart in s.leaves then [] else LeafFollowUps(c, s', leaf.segmentStart))
  }

  // ---- internal results ----

  predicate HasInternals(s: State, layer: nat, lo: nat, hi: nat) {
    forall i: nat {:trigger InternalKey(layer, i)} :: lo <= i < hi ==> InternalKey(layer, i) in s.internals
  }

  function InternalKey(layer: nat, idx: nat): (nat, nat) {
    (layer, idx)
  }

  function InternalProofs(s: State, layer: nat, lo: nat, hi: nat): seq<Payload>
    requires lo <= hi && HasInternals(s, layer, lo, hi)
  {
    seq(hi - lo, i requires 0 <= i < hi - lo => s.internals[InternalKey(layer, lo + i)].proof)
  }

  /** Least segment start, and greatest segment end, among the given children. */
  function MinStart(s: State, layer: nat, lo: nat, hi: nat): nat
    requires lo < hi && HasInternals(s, layer, lo, hi)
    decreases hi
  {
    var x := s.internals[InternalKey(layer, hi - 1)].segmentStart;
    if hi == lo + 1 then x else Min(MinStart(s, layer, lo, hi - 1), x)
  }

  function MaxEnd(s: State, layer: nat, lo: nat, hi: nat): nat
    requires lo < hi && HasInternals(s, layer, lo, hi)
    decreases hi
  {
    var x := s.internals[InternalKey(layer, hi - 1)].segmentEnd;
    if hi == lo + 1 then x else Max(MaxEnd(s, layer, lo, hi - 1), x)
  }

  /** Number of proofs in layers `0 .. layers - 1`, counting an empty layer as its wrap. */
  function TotalInternalProofs(numLeaves: nat, internalArity: nat, layers: nat): nat
    requires internalArity > 0
  {
    if layers == 0 then 0
    else TotalInternalProofs(numLeaves, internalArity, layers - 1) + Max(ProofsAtLayer(numLeaves, layers - 1, internalArity), 1)
  }

  /** `build_deferral_tail_dispatch`. */
  function DeferralTailFor(c: Config, s: State, finalLayerIdx: nat): Option<DeferralTail>
    requires c.Valid()
  {
    if c.deferralCircuits == 0 || s.numSegments.None? then None
    else
      var n := s.numSegments.value;
      var total := TotalInternalProofs(CeilDiv(n, c.leafArity), c.internalArity, c.FinalLayer(n) + 1);
      Some(DeferralTail(Max(finalLayerIdx, 1), Max(total - 1, 0), if s.finalMerklePath.Some? then s.finalMerklePath.value else []))
  }

  function NextInternal(c: Config, s: State, layer: nat, lo: nat, hi: nat, isFinal: bool): seq<Request>
    requires c.Valid() && lo < hi
  {
    if HasInternals(s, layer, lo, hi) then
      [InternalRequest(InternalProofs(s, layer, lo, hi), layer + 1, MinStart(s, layer, lo, hi), MaxEnd(s, layer, lo, hi), isFinal,
                       if isFinal then DeferralTailFor(c, s, layer + 1) else None, if isFinal then s.depth0Merkle else None)]
    else []
  }

  /** The range check on a result keeps its index inside its layer, so its group is not empty. */
  lemma IndexInsideLayer(c: Config, n: nat, segmentStart: nat, layer: nat)
    requires c.Valid() && segmentStart < n
    requires ProofsAtLayer(CeilDiv(n, c.leafArity), layer, c.internalArity) > 0
    ensures GroupStart(c, InternalIdx(segmentStart, layer, c.leafArity, c.internalArity)) <
            ProofsAtLayer(CeilDiv(n, c.leafArity), layer, c.internalArity)
  {
    var p := Plan(n, c.leafArity, c.internalArity);
    var idx := InternalIdx(segmentStart, layer, c.leafArity, c.internalArity);
    assert p.Width(1) == CeilDiv(n, c.leafArity);
    InternalLayerWidth(p, layer);
    SpanClosedForm(p, layer);
    InternalSpanPositive(c.leafArity, c.internalArity, layer);
    DivBounds(segmentStart, p.Span(layer + 2));
    NodeHasSegments(p, Node(layer + 2, idx));
    DivBounds(idx, c.internalArity);
  }

  function InternalFollowUps(c: Config, s: State, r: InternalState, idx: nat): Reply
    requires c.Valid() && r.proof.Some?
    requires idx == InternalIdx(r.segmentStart, r.layerIdx, c.leafArity, c.internalArity)
    requires s.numSegments.Some? ==> r.segmentStart < s.numSegments.value
  {
    var layer, lo := r.layerIdx, GroupStart(c, idx);
    if s.numSegments.None? then Requests(NextInternal(c, s, layer, lo, lo + c.internalArity, false))
    else
      var numLeaves := CeilDiv(s.numSegments.value, c.leafArity);
      var layers, final := NumInternalLayers(numLeaves, c.internalArity), c.FinalLayer(s.numSegments.value);
      if layer == final then
        if c.proofType.Evm? then
          if r.readyForEvm then Requests([EvmRequest(r.proof.value, r.merkle, c.deferralCircuits > 0)])
          else Refused("Evm proof reached the final internal layer without a ready-for-evm proof")
        else Requests([])
      else if layers == layer + 1 && layers == 1 then
        Requests([InternalRequest([r.proof.value], layer + 1, r.segmentStart, r.segmentEnd, true,
                                  DeferralTailFor(c, s, layer + 1), s.depth0Merkle)])
      else
        var count := ProofsAtLayer(numLeaves, layer, c.internalArity);
        if count == 0 then Requests([])
        else
          var hi := Min(lo + c.internalArity, count);
          IndexInsideLayer(c, s.numSegments.value, r.segmentStart, layer);
          Requests(NextInternal(c, s, layer, lo, hi, layer + 1 == final))
  }

  function HandleInternal(c: Config, s: State, r: InternalState): (State, Reply)
    requires c.Valid()
  {
    if r.proof.None? then (s.(status := Failing("InternalProof missing proof data")), Requests([]))
    else if s.numSegments.Some? && (r.segmentStart >= s.numSegments.value || r.segmentEnd >= s.numSegments.value) then (s, Requests([]))
    else
      var idx := InternalIdx(r.segmentStart, r.layerIdx, c.leafArity, c.internalArity);
      var key := InternalKey(r.layerIdx, idx);
      var s' := s.(internals := s.internals[key := Piece(r.segmentStart, r.segmentEnd, r.proof.value)]);
      (s', if key in s.internals then Requests([]) else InternalFollowUps(c, s', r, idx))
  }

  function HandleEvm(c: Config, s: State, evm: Option<Payload>): (State, seq<Request>)
    requires c.Valid()
  {
    if !c.proofType.Evm? then (s.(status := Failing("received Evm result for a Stark proof")), [])
    else if evm.None? then (s.(status := Failing("Evm result missing proof bytes")), [])
    else if s.evm.Some? then (s, [])
    else (s.(evm := evm), [])
  }

  // ---- ExecuteE2 ----

  /** The last, partial leaf batch, if all its app proofs are already here. */
  function FlushPendingLeafBatches(c: Config, s: State): seq<Request>
    requires c.Valid() && s.numSegments.Some?
  {
    var n := s.numSegments.value;
    var lo := (n / c.leafArity) * c.leafArity;
    DivBounds(n, c.leafArity);
    if n % c.leafArity > 0 && lo !in s.leaves && HasApps(s, lo, n) then [LeafRequest(AppProofs(s, lo, n), lo, n - 1)] else []
  }

  /** Children of internal layer `layer`: the leaves, or the layer below. */
  function ChildCount(c: Config, n: nat, layer: nat): nat
    requires c.Valid()
  {
    if layer == 0 then CeilDiv(n, c.leafArity) else ProofsAtLayer(CeilDiv(n, c.leafArity), layer - 1, c.internalArity)
  }

  predicate HasTailChildren(c: Config, s: State, layer: nat, lo: nat, hi: nat) {
    if layer == 0 then HasLeaves(c, s, lo, hi) else HasInternals(s, layer - 1, lo, hi)
  }

  function TailChildren(c: Config, s: State, layer: nat, lo: nat, hi: nat): seq<Payload>
    requires lo <= hi && HasTailChildren(c, s, layer, lo, hi)
  {
    if layer == 0 then LeafProofs(c, s, lo, hi) else InternalProofs(s, layer - 1, lo, hi)
  }

  function TailEnd(c: Config, s: State, layer: nat, lo: nat, hi: nat): nat
    requires lo < hi && HasTailChildren(c, s, layer, lo, hi)
  {
    if layer == 0 then s.leaves[LeafKey(c, hi - 1)].segmentEnd else s.internals[InternalKey(layer - 1, hi - 1)].segmentEnd
  }

  /** The incomplete last group of one internal layer, if its children are all here. */
  function TailProof(c: Config, s: State, layer: nat): seq<Request>
    requires c.Valid() && s.numSegments.Some?
  {
    var n := s.numSegments.value;
    var count := ChildCount(c, n, layer);
    var tail := count % c.internalArity;
    var lo := count - tail;
    if tail == 0 || InternalKey(layer, count / c.internalArity) in s.internals || !HasTailChildren(c, s, layer, lo, count) then []
    else
      var isFinal := layer == c.FinalLayer(n);
      [InternalRequest(TailChildren(c, s, layer, lo, count), layer, lo * Pow(c.internalArity, layer) * c.leafArity,
                       TailEnd(c, s, layer, lo, count), isFinal,
                       if isFinal then DeferralTailFor(c, s, layer) else None, if isFinal then s.depth0Merkle else None)]
  }

  function TailProofs(c: Config, s: State, layers: nat): seq<Request>
    requires c.Valid() && s.numSegments.Some?
  {
    if layers == 0 then [] else TailProofs(c, s, layers - 1) + TailProof(c, s, layers - 1)
  }

  function TriggerTailProofs(c: Config, s: State): seq<Request>
    requires c.Valid() && s.numSegments.Some?
  {
    TailProofs(c, s, NumInternalLayers(CeilDiv(s.numSegments.value, c.leafArity), c.internalArity))
  }

  function HandleExecuteE2(c: Config, s: State, numSegments: nat): (State, seq<Request>)
    requires c.Valid()
  {
    if s.numSegments.Some? then (s, [])
    else if numSegments == 0 then (s.(status := Failing("ExecuteE2 returned 0 segments")), [])
    else
      var s' := s.(numSegments := Some(numSegments));
      (s', FlushPendingLeafBatches(c, s') + TriggerTailProofs(c, s'))
  }

  // ---- one result ----

  function HandleProofResult(c: Config, s: State, r: ProofResult): (State, Reply)
    requires c.Valid()
  {
    if Sealed(c, s) then (s, Requests([]))
    else
      match r
      case ErrorResult(step, error) =>
        (s.(status := Failing("step '" + step + "' failed: " + error), lastError := Some((step, error))), Requests([]))
      case ExecuteE2Result(cost, n) =>
        if cost > c.costLimit then (s.(status := Failing("ExecuteE2 cost exceeds cost limit")), Requests([]))
        else var (s', f) := HandleExecuteE2(c, s, n); (s', Requests(f))
      case AppResult(app) => var (s', f) := HandleApp(c, s, app); (s', Requests(f))
      case LeafResult(leaf) => var (s', f) := HandleLeaf(c, s, leaf); (s', Requests(f))
      case InternalResult(internal) => HandleInternal(c, s, internal)
      case EvmResult(evm) => var (s', f) := HandleEvm(c, s, evm); (s', Requests(f))
  }

  function HandleEnvelope(c: Config, s: State, r: ProofResult): (State, Outcome)
    requires c.Valid()
  {
    if Sealed(c, s) then (s.(lateNoticeEmitted := true), Late(!s.lateNoticeEmitted, s.status))
    else
      var (s', reply) := HandleProofResult(c, s, r);
      match reply
      case Requests(f) => (s', Processed(f, Sealed(c, s')))
      case Refused(e) => (s', HandlerError(e))
  }
}
