/** Messages between the manager and its workers. Proof bytes are opaque to the
  * manager; here a payload records how it was assembled, so that "the final proof"
  * has a meaning. */
module Protocol {

  datatype Option<+T> = None | Some(value: T)

  type Bytes = seq<bv8>

  datatype ProofType = Stark | Evm

  datatype Role = Full | StarkOnly | EvmDedicated {
    predicate RunsStarkProving() {
      Full? || StarkOnly?
    }

    predicate RunsEvmProve() {
      Full? || EvmDedicated?
    }
  }

  datatype Step = ShardedAppProve | LeafProve | InternalProve | EvmProve | RootProve | Halo2Prove

  datatype Payload =
    | AppProof(segment: nat)
    | LeafProof(children: seq<Payload>)
    | InternalProof(layer: nat, children: seq<Payload>)
    | EvmProof(inner: Payload)

  /** Tail-merge metadata attached to the final internal request of a deferral proof. */
  datatype DeferralTail = DeferralTail(recursiveLayer: nat, nodeIdx: nat, finalMerklePath: Bytes)

  datatype Request =
    | LeafRequest(appProofs: seq<Payload>, segmentStart: nat, segmentEnd: nat)
    | InternalRequest(childProofs: seq<Payload>, layerIdx: nat, segmentStart: nat, segmentEnd: nat,
                      isFinalProof: bool, deferralTail: Option<DeferralTail>, depth0Merkle: Option<Bytes>)
    | EvmRequest(internalProof: Payload, merkle: Option<Bytes>, hasDeferral: bool)
  {
    function Step(): Step {
      match this
      case LeafRequest(_, _, _) => LeafProve
      case InternalRequest(_, _, _, _, _, _, _) => InternalProve
      case EvmRequest(_, _, _) => EvmProve
    }

    function LayerIdx(): Option<nat> {
      if InternalRequest? then Some(layerIdx) else None
    }
  }

  datatype InternalState = InternalState(layerIdx: nat, segmentStart: nat, segmentEnd: nat, proof: Option<Payload>,
                                         readyForEvm: bool, merkle: Option<Bytes>)

  datatype LeafState = LeafState(segmentStart: nat, segmentEnd: nat, proof: Option<Payload>)

  datatype AppState = AppState(segmentIdx: nat, proof: Option<Payload>,
                               finalMerklePath: Option<Bytes>, depth0Merkle: Option<Bytes>)

  datatype ProofResult =
    | ErrorResult(step: string, error: string)
    | ExecuteE2Result(cost: nat, numSegments: nat)
    | AppResult(app: AppState)
    | LeafResult(leaf: LeafState)
    | InternalResult(internal: InternalState)
    | EvmResult(evm: Option<Payload>)
}
