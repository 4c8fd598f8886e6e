/** The merkle bytes that the terminal app worker attaches reach the final internal request:
  * the first bytes received are kept, and none can arrive after the request has been built. */
module DeferralBytes {
  import opened Arithmetic
  import opened Protocol
  import opened Recursion
  import opened TreePlan
  import opened ProofDriver
  import opened DriverRefinement
  import opened Scheduler
  import opened Manager
  import opened ManagerCounting
  import opened ManagerInvariant
  import opened ReceiveEvents
  import opened InvariantHolds
  import opened Safety

  function HeldPath(t: State): Bytes {
    if t.finalMerklePath.Some? then t.finalMerklePath.value else []
  }

  ghost predicate SameBytes(t: State, t': State) {
    t'.finalMerklePath == t.finalMerklePath && t'.depth0Merkle == t.depth0Merkle
  }

  /** A final internal request carries the bytes the tree holds. */
  ghost predicate Carries(t: State, r: Request) {
    r.InternalRequest? && r.isFinalProof ==>
      && r.depth0Merkle == t.depth0Merkle
      && (r.deferralTail.Some? ==> r.deferralTail.value.finalMerklePath == HeldPath(t))
  }

  ghost predicate AllCarry(t: State, rs: seq<Request>) {
    forall r :: r in rs ==> Carries(t, r)
  }

  // ---- one result, in any state ----

  /** Bytes already held are kept; otherwise those of a newly stored app proof are taken. */
  ghost predicate TakesFirst(t: State, t': State, app: AppState) {
    if t'.apps.Keys == t.apps.Keys then SameBytes(t, t')
    else
      && t'.finalMerklePath == (if t.finalMerklePath.Some? then t.finalMerklePath else app.finalMerklePath)
      && t'.depth0Merkle == (if t.depth0Merkle.Some? then t.depth0Merkle else app.depth0Merkle)
  }

  lemma {:induction false} TailProofsCarry(c: Config, t: State, layers: nat)
    requires c.Valid() && t.numSegments.Some?
    ensures AllCarry(t, TailProofs(c, t, layers))
  {
    if layers > 0 {
      TailProofsCarry(c, t, layers - 1);
      TailProofCarries(c, t, layers - 1);
      hide TailProof, Carries;
    }
  }

  lemma TailProofCarries(c: Config, t: State, layer: nat)
    requires c.Valid() && t.numSegments.Some?
    ensures AllCarry(t, TailProof(c, t, layer))
  {
    TailCarriesPath(c, t, layer);
    hide ChildCount, Pow, TailChildren, TailEnd, HasTailChildren, Config.FinalLayer, DeferralTailFor;
  }

  lemma TailCarriesPath(c: Config, t: State, layer: nat)
    requires c.Valid()
    ensures DeferralTailFor(c, t, layer).Some? ==> DeferralTailFor(c, t, layer).value.finalMerklePath == HeldPath(t)
  {
  }

  lemma NextCarries(c: Config, t: State, layer: nat, lo: nat, hi: nat, isFinal: bool)
    requires c.Valid() && lo < hi
    ensures AllCarry(t, NextInternal(c, t, layer, lo, hi, isFinal))
  {
    hide DeferralTailFor, InternalProofs, MinStart, MaxEnd, HasInternals;
    TailCarriesPath(c, t, layer + 1);
  }

  lemma FollowUpsCarry(c: Config, t: State, r: InternalState, idx: nat)
    requires c.Valid() && r.proof.Some? && (t.numSegments.Some? ==> r.segmentStart < t.numSegments.value)
    requires idx == InternalIdx(r.segmentStart, r.layerIdx, c.leafArity, c.internalArity)
    ensures var reply := InternalFollowUps(c, t, r, idx); reply.Requests? ==> AllCarry(t, reply.requests)
  {
    hide InternalIdx, ProofsAtLayer, NumInternalLayers, CeilDiv, GroupStart, NextInternal, Config.FinalLayer, DeferralTailFor;
    TailCarriesPath(c, t, r.layerIdx + 1);
    var wrap := InternalRequest([r.proof.value], r.layerIdx + 1, r.segmentStart, r.segmentEnd, true,
                                DeferralTailFor(c, t, r.layerIdx + 1), t.depth0Merkle);
    assert Carries(t, wrap) && AllCarry(t, [wrap]);
    forall lo: nat, hi: nat, isFinal: bool | lo < hi ensures AllCarry(t, NextInternal(c, t, r.layerIdx, lo, hi, isFinal)) {
      NextCarries(c, t, r.layerIdx, lo, hi, isFinal);
    }
    if t.numSegments.Some? && ProofsAtLayer(CeilDiv(t.numSegments.value, c.leafArity), r.layerIdx, c.internalArity) > 0 {
      IndexInsideLayer(c, t.numSegments.value, r.segmentStart, r.layerIdx);
    }
    hide Carries;
  }

  lemma InternalCarries(c: Config, t: State, r: InternalState)
    requires c.Valid()
    ensures var (t', reply) := HandleInternal(c, t, r); SameBytes(t, t') && (reply.Requests? ==> AllCarry(t', reply.requests))
  {
    hide InternalIdx, InternalFollowUps, Carries;
    var t' := HandleInternal(c, t, r).0;
    var idx := InternalIdx(r.segmentStart, r.layerIdx, c.leafArity, c.internalArity);
    if r.proof.Some? && (t'.numSegments.Some? ==> r.segmentStart < t'.numSegments.value) {
      FollowUpsCarry(c, t', r, idx);
    }
  }

  lemma CountCarries(c: Config, t: State, n: nat)
    requires c.Valid()
    ensures var (t', f) := HandleExecuteE2(c, t, n); SameBytes(t, t') && AllCarry(t', f)
  {
    if t.numSegments.None? && n > 0 {
      var t' := t.(numSegments := Some(n));
      TailProofsCarry(c, t', NumInternalLayers(CeilDiv(n, c.leafArity), c.internalArity));
      assert AllCarry(t', FlushPendingLeafBatches(c, t')) by { hide HasApps, AppProofs; }
      hide FlushPendingLeafBatches, TailProofs, Carries, NumInternalLayers, CeilDiv;
    }
  }

  lemma AppCarries(c: Config, t: State, app: AppState)
    requires c.Valid()
    ensures var (t', f) := HandleApp(c, t, app); TakesFirst(t, t', app) && AllCarry(t', f)
  {
    hide HasApps, AppProofs, BatchStart, BatchEnd;
    var t' := HandleApp(c, t, app).0;
    if app.segmentIdx in t.apps {
      assert t'.apps.Keys == t.apps.Keys;
    } else if app.segmentIdx in t'.apps {
      assert t'.apps.Keys != t.apps.Keys;
    }
  }

  lemma LeafCarries(c: Config, t: State, leaf: LeafState)
    requires c.Valid()
    ensures var (t', f) := HandleLeaf(c, t, leaf); SameBytes(t, t') && AllCarry(t', f)
  {
    hide HasLeaves, LeafProofs, GroupStart, LeafGroupEnd;
  }

  /** Whatever the state and the result: only a newly stored app proof brings bytes, and only where
    * none are held; every final request built carries what is held then. */
  lemma ResultsCarryBytes(c: Config, t: State, r: ProofResult)
    requires c.Valid()
    ensures var (t', reply) := HandleProofResult(c, t, r);
            && (if r.AppResult? then TakesFirst(t, t', r.app) else SameBytes(t, t'))
            && (reply.Requests? ==> AllCarry(t', reply.requests))
  {
    hide Sealed, Carries, HandleInternal, HandleExecuteE2, HandleApp, HandleLeaf;
    match r
    case InternalResult(x) => InternalCarries(c, t, x);
    case ExecuteE2Result(_, n) => CountCarries(c, t, n);
    case AppResult(app) => AppCarries(c, t, app);
    case LeafResult(leaf) => LeafCarries(c, t, leaf);
    case EvmResult(_) =>
    case ErrorResult(_, _) =>
  }

  lemma EnvelopesCarryBytes(c: Config, t: State, r: ProofResult)
    requires c.Valid()
    ensures var (t', o) := HandleEnvelope(c, t, r);
            && (!r.AppResult? ==> SameBytes(t, t'))
            && (o.Late? ==> SameBytes(t, t'))
            && (o.Processed? ==> AllCarry(t', o.followUps))
  {
    ResultsCarryBytes(c, t, r);
    hide HandleProofResult, Sealed, AllCarry;
  }

  // ---- whole runs ----

  /** With an app result still to come, no final request has been made. */
  lemma NoFinalYet(u: Setup, s: Sys, i: nat, r: Request)
    requires u.Valid() && s.tree.status.InProgress? && Running(u, s) && i < u.segments && i !in s.tree.apps
    requires r in s.requested
    ensures !(r.InternalRequest? && r.isFinalProof)
  {
    assert Good(u, r);
    WidthZero(P(u));
    if r.InternalRequest? && r.isFinalProof {
      FinalAsksTop(u, s, r);
      TopWidth(P(u));
      ReadyMeansBelow(u, s.tree, P(u).Top(), Node(0, i));
    }
  }

  lemma FinalAsksTop(u: Setup, s: Sys, r: Request)
    requires u.Valid() && HistoryExact(u, s.tree, s.requested) && r in s.requested && r.InternalRequest? && r.isFinalProof
    ensures IsReady(u, s.tree, Node(P(u).Top(), 0))
  {
    InIsCounted(u, s.requested, r);
    hide Count, IsReady, Asked;
    assert Good(u, r);
    GoodFollowsPlan(u, r);
  }

  ghost predicate BytesOk(s: Sys) {
    s.tree.status.InProgress? || s.tree.status.Completed? ==> AllCarry(s.tree, s.requested)
  }

  lemma ReceiveBytes(u: Setup, s: Sys, worker: nat, r: ProofResult) returns (f: seq<Request>)
    requires u.config.Valid() && SchedOk(s)
    ensures var s' := Receive(u, s, worker, r);
            && s'.requested == s.requested + f && s'.tree == HandleEnvelope(u.config, s.tree, r).0
            && AllCarry(s'.tree, f)
            && (!r.AppResult? ==> SameBytes(s.tree, s'.tree))
            && (HandleEnvelope(u.config, s.tree, r).1.Late? ==> SameBytes(s.tree, s'.tree))
  {
    EnvelopesCarryBytes(u.config, s.tree, r);
    var outcome := HandleEnvelope(u.config, s.tree, r).1;
    f := if outcome.Processed? then outcome.followUps else [];
    hide HandleEnvelope, Carries;
    assert s.requested + [] == s.requested;
  }

  /** A delivery that brings no new bytes, or finds no final request to disagree with. */
  lemma DeliveryBytes(u: Setup, s: Sys, worker: nat, r: ProofResult)
    requires u.config.Valid() && SchedOk(s) && BytesOk(s)
    requires r.AppResult? && s.tree.status.InProgress? ==> forall x :: x in s.requested ==> !(x.InternalRequest? && x.isFinalProof)
    ensures BytesOk(Receive(u, s, worker, r))
  {
    var f := ReceiveBytes(u, s, worker, r);
    if s.tree.status.InProgress? {
      hide Receive, HandleEnvelope;
    } else {
      ReceiveWhenSealed(u, s, worker, r);
      hide Receive, HandleEnvelope, Carries;
    }
  }

  lemma ArrivalBytes(u: Setup, s: Sys, e: Event)
    requires u.Valid() && SchedOk(s) && Inv(u, s) && BytesOk(s) && Enabled(u, s, e) && Delivers(e)
    ensures BytesOk(Do(u, s, e))
  {
    if s.tree.status.InProgress? && e.DeliverApp? {
      forall x | x in s.requested ensures !(x.InternalRequest? && x.isFinalProof) {
        NoFinalYet(u, s, e.segment, x);
      }
    }
    assert Sent(u, s, e).AppResult? ==> e.DeliverApp?;
    hide Inv, Receive, Sender, Sent;
    DeliveryBytes(u, Found(u, s, e), Sender(u, s, e), Sent(u, s, e));
  }

  lemma QuietBytes(u: Setup, s: Sys, e: Event)
    requires u.Valid() && SchedOk(s) && BytesOk(s) && Enabled(u, s, e) && !Delivers(e)
    ensures BytesOk(Do(u, s, e))
  {
    hide AccountStore, AssignOrQueue, ReadyForFinalization, FinalArtifact;
    assert SameBytes(s.tree, Do(u, s, e).tree) && Do(u, s, e).requested == s.requested;
  }

  /** In every run, the final internal request carries the merkle bytes that the tree ends with:
    * the first that any app result brought. */
  lemma {:induction false} RunKeepsBytes(u: Setup, events: seq<Event>)
    requires u.Valid()
    ensures BytesOk(Run(u, events))
  {
    hide Inv, Do, Enabled, BytesOk;
    if events == [] {
      assert BytesOk(Init(u)) by { NothingCarried(u); }
    } else {
      var before, e := Run(u, events[..|events| - 1]), events[|events| - 1];
      RunKeepsBytes(u, events[..|events| - 1]);
      RunKeepsInv(u, events[..|events| - 1]);
      if Enabled(u, before, e) {
        if Delivers(e) { ArrivalBytes(u, before, e); } else { QuietBytes(u, before, e); }
      }
    }
  }

  lemma NothingCarried(u: Setup)
    ensures BytesOk(Init(u))
  {
  }
}
