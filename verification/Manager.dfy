/** The manager of one proof as a machine over events. Receiving a result is three
  * separately locked phases (`handlers.rs`, `proof_result`): update the tree, account on
  * the scheduler, enqueue the follow-ups. Phases of different results interleave freely.
  * A dispatched job stays outstanding until its result is received. */
module Manager {
  import opened Protocol
  import opened ProofDriver
  import opened Scheduler

  datatype Setup = Setup(config: Config, segments: nat, roles: seq<Role>, leafPackThreshold: nat, maxLeafProvers: nat, persists: bool) {

    function StarkWorkers(): nat {
      StarkCount(Ready())
    }

    /** The ready set: worker ids are positions. */
    function Ready(): seq<(nat, Role)> {
      seq(|roles|, i requires 0 <= i < |roles| => (i, roles[i]))
    }

    /** What a started proof may rely on: see the registry for the roles. */
    ghost predicate Valid() {
      && config.Valid() && segments >= 1
      && StarkWorkers() >= 1
      && (forall i :: 0 <= i < |roles| ==> (roles[i].RunsStarkProving() <==> i < StarkWorkers()))
      && (config.proofType.Evm? ==> exists i :: 0 <= i < |roles| && roles[i].RunsEvmProve())
    }
  }

  /** A received result on its way through the phases. */
  datatype Handler = Handler(worker: nat, result: ProofResult, sealed: bool, accounted: bool, followUps: seq<Request>)

  datatype Sys = Sys(
    tree: State,
    sched: Option<Sched>,           // None once removed from the store
    running: seq<Assigned>,         // dispatched, result not yet received
    handlers: seq<Handler>,
    countSent: bool,                // ExecuteE2 delivered
    appsSent: set<nat>,             // app results delivered
    persisted: Option<Payload>,     // what finalization wrote out
    requested: seq<Request>)        // history: every follow-up ever asked for

  datatype Event =
    | DeliverCount(worker: nat, cost: nat)
    | DeliverApp(segment: nat, finalMerklePath: Option<Bytes>, depth0Merkle: Option<Bytes>)
    | DeliverJob(job: nat, merkle: Option<Bytes>)
    | DeliverError(worker: nat, step: string, error: string)
    | Account(handler: nat, saved: bool)
    | Enqueue(handler: nat)
    | Abort(step: string, reason: string)
    | CancelProof
    | DrainFailing(expired: bool)

  function Init(u: Setup): Sys {
    Sys(FRESH, Some(InitProof(u.Ready(), u.leafPackThreshold, u.maxLeafProvers)), [], [], false, {}, None, [])
  }

  predicate Enabled(u: Setup, s: Sys, e: Event) {
    match e
    case DeliverCount(w, _) => !s.countSent && w < u.StarkWorkers()
    case DeliverApp(i, _, _) => i < u.segments && i !in s.appsSent && u.StarkWorkers() > 0
    case DeliverJob(j, _) => j < |s.running|
    case DeliverError(w, _, _) => w < |u.roles|
    case Account(h, _) => h < |s.handlers| && !s.handlers[h].accounted
    case Enqueue(h) => h < |s.handlers| && s.handlers[h].accounted && s.handlers[h].followUps != []
    case Abort(_, _) => true
    case CancelProof => true
    case DrainFailing(expired) =>
      s.tree.status.Failing? && (expired || s.sched.None? || IsFullyDrained(s.sched.value))
  }

  /** What a worker sends back: the fold of what it was given, with the layer and range it
    * was given. The final internal proof of an EVM run comes back ready for the EVM step. */
  function ResultOf(u: Setup, r: Request, merkle: Option<Bytes>): ProofResult {
    match r
    case LeafRequest(children, start, end) => LeafResult(LeafState(start, end, Some(LeafProof(children))))
    case InternalRequest(children, layer, start, end, isFinal, _, _) =>
      InternalResult(InternalState(layer, start, end, Some(InternalProof(layer, children)), isFinal && u.config.proofType.Evm?, merkle))
    case EvmRequest(inner, _, _) => EvmResult(Some(EvmProof(inner)))
  }

  /** Phase 1, under the proof lock. A late result of a failing proof is only drained. */
  function Receive(u: Setup, s: Sys, worker: nat, r: ProofResult): (s': Sys)
    requires u.config.Valid() && SchedOk(s)
    ensures SchedOk(s')
  {
    var (tree', outcome) := HandleEnvelope(u.config, s.tree, r);
    match outcome
    case Late(_, status) =>
      if status.Failing? && s.sched.Some? then s.(tree := tree', sched := Some(WorkerDrained(s.sched.value, worker, r)))
      else s.(tree := tree')
    case HandlerError(_) => s.(tree := tree')
    case Processed(f, sealed) =>
      s.(tree := tree', handlers := s.handlers + [Handler(worker, r, sealed, false, f)], requested := s.requested + f)
  }

  ghost predicate SchedOk(s: Sys) {
    s.sched.Some? ==> s.sched.value.numWorkers > 0
  }

  /** Phase 2 on the scheduler: ExecuteE2 sets the count whatever the tree said; everything
    * but a sealing result is accounted for and may pull one queued item. */
  function AccountOn(s: Sched, h: Handler): (Sched, seq<Assigned>)
    requires s.numWorkers > 0
  {
    var (s1, released) := if h.result.ExecuteE2Result? then SetNumSegments(s, h.result.numSegments) else (s, []);
    SetNumSegmentsKeeps(s, if h.result.ExecuteE2Result? then h.result.numSegments else 0);
    if h.sealed then (s1, released)
    else
      var (s2, pulled) := CompleteWork(s1, h.worker, h.result);
      (s2, released + if pulled.Some? then [pulled.value] else [])
  }

  /** The same through the store: a removed proof has nothing to account on. */
  function AccountStore(sched: Option<Sched>, h: Handler): (Option<Sched>, seq<Assigned>)
    requires sched.Some? ==> sched.value.numWorkers > 0
    ensures AccountStore(sched, h).0.Some? <==> sched.Some?
    ensures sched.Some? ==> AccountStore(sched, h).0.value.numWorkers == sched.value.numWorkers
  {
    if sched.None? then (None, [])
    else
      AccountOnKeeps(sched.value, h);
      var (d, a) := AccountOn(sched.value, h);
      (Some(d), a)
  }

  function AccountPhase(u: Setup, s: Sys, i: nat, saved: bool): (s': Sys)
    requires u.config.Valid() && SchedOk(s) && i < |s.handlers|
    ensures SchedOk(s')
  {
    var h := s.handlers[i];
    var handlers' := s.handlers[i := h.(accounted := true)];
    var (sched', handedOut) := AccountStore(s.sched, h);
    var s1 := s.(sched := sched', running := s.running + handedOut, handlers := handlers');
    if h.sealed && !s.tree.status.Failing? then
      var finishing := s.tree.status.InProgress? && ReadyForFinalization(u.config, s.tree);
      s1.(tree := Finalize(u.config, s.tree, if u.persists then Some(saved) else None),
          sched := None,
          persisted := if finishing && u.persists && saved then FinalArtifact(u.config, s.tree) else s.persisted)
    else s1
  }

  /** Phase 3, one follow-up at a time. A removed proof drops it. */
  function EnqueueOne(s: Sys, i: nat): (s': Sys)
    requires SchedOk(s) && i < |s.handlers| && s.handlers[i].followUps != []
    ensures SchedOk(s')
  {
    var h := s.handlers[i];
    var handlers' := s.handlers[i := h.(followUps := h.followUps[1..])];
    if s.sched.None? then s.(handlers := handlers')
    else
      var (d, a) := AssignOrQueue(s.sched.value, h.followUps[0]);
      s.(sched := Some(d), handlers := handlers', running := s.running + if a.Some? then [a.value] else [])
  }

  predicate Delivers(e: Event) {
    e.DeliverCount? || e.DeliverApp? || e.DeliverJob? || e.DeliverError?
  }

  /** The state in which a delivered result finds the manager; below, who sent it and what it is. */
  function Found(u: Setup, s: Sys, e: Event): Sys
    requires Delivers(e) && Enabled(u, s, e)
  {
    match e
    case DeliverCount(_, _) => s.(countSent := true)
    case DeliverApp(i, _, _) => s.(appsSent := s.appsSent + {i})
    case DeliverJob(j, _) => s.(running := s.running[..j] + s.running[j + 1..])
    case DeliverError(_, _, _) => s
  }

  function Sender(u: Setup, s: Sys, e: Event): nat
    requires Delivers(e) && Enabled(u, s, e)
  {
    match e
    case DeliverCount(w, _) => w
    case DeliverApp(i, _, _) => i % u.StarkWorkers()
    case DeliverJob(j, _) => s.running[j].workerId
    case DeliverError(w, _, _) => w
  }

  function Sent(u: Setup, s: Sys, e: Event): ProofResult
    requires Delivers(e) && Enabled(u, s, e)
  {
    match e
    case DeliverCount(_, cost) => ExecuteE2Result(cost, u.segments)
    case DeliverApp(i, path, depth0) => AppResult(AppState(i, Some(AppProof(i)), path, depth0))
    case DeliverJob(j, merkle) => ResultOf(u, s.running[j].request, merkle)
    case DeliverError(_, step, error) => ErrorResult(step, error)
  }

  function Do(u: Setup, s: Sys, e: Event): (s': Sys)
    requires u.config.Valid() && SchedOk(s) && Enabled(u, s, e)
    ensures SchedOk(s')
  {
    if Delivers(e) then Receive(u, Found(u, s, e), Sender(u, s, e), Sent(u, s, e))
    else
      match e
      case Account(h, saved) => AccountPhase(u, s, h, saved)
      case Enqueue(h) => EnqueueOne(s, h)
      case Abort(step, reason) => s.(tree := MarkFailing(u.config, s.tree, step, reason))
      case CancelProof => s.(tree := Cancel(u.config, s.tree), sched := None)
      case DrainFailing(_) => s.(tree := FailingToFailed(s.tree), sched := None)
  }

  /** The state after any sequence of events; an event that cannot happen is skipped. */
  function Run(u: Setup, events: seq<Event>): (s: Sys)
    requires u.config.Valid() && u.StarkWorkers() > 0
    ensures SchedOk(s)
  {
    if events == [] then Init(u)
    else
      var s := Run(u, events[..|events| - 1]);
      var e := events[|events| - 1];
      if Enabled(u, s, e) then Do(u, s, e) else s
  }

  lemma RunOneMore(u: Setup, events: seq<Event>, e: Event)
    requires u.config.Valid() && u.StarkWorkers() > 0
    ensures Run(u, events + [e]) == if Enabled(u, Run(u, events), e) then Do(u, Run(u, events), e) else Run(u, events)
  {
    hide Do, Enabled;
    assert (events + [e])[..|events|] == events;
  }

  // ---- scheduler operations never change the sharding ----

  lemma DrainPendingKeeps(s: Sched)
    ensures DrainPending(s).0.numWorkers == s.numWorkers && DrainPending(s).0.numSegments == s.numSegments
    decreases |s.pending|
  {
    var (s', a) := TryDequeue(s);
    if a.Some? {
      DrainPendingKeeps(s');
    }
  }

  lemma SetNumSegmentsKeeps(s: Sched, n: nat)
    requires s.numWorkers > 0
    ensures SetNumSegments(s, n).0.numWorkers == s.numWorkers
  {
    DrainPendingKeeps(s.(numSegments := Some(n), workers := ReleaseAllDone(s.workers, n, s.numWorkers)));
  }

  lemma AccountOnKeeps(s: Sched, h: Handler)
    requires s.numWorkers > 0
    ensures AccountOn(s, h).0.numWorkers == s.numWorkers
  {
    SetNumSegmentsKeeps(s, if h.result.ExecuteE2Result? then h.result.numSegments else 0);
  }
}
