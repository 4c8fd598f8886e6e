/** Bookkeeping for the manager's invariant: how many copies of a job, a slot or a message
  * are in each place. */
module ManagerCounting {
  import opened Protocol
  import opened Recursion
  import opened TreePlan
  import opened PriorityQueue
  import opened ProofDriver
  import opened DriverRefinement
  import opened Scheduler
  import opened SchedulerFacts
  import opened Manager

  ghost function Bit(b: bool): nat {
    if b then 1 else 0
  }

  ghost function P(u: Setup): Plan {
    PlanOf(u.config, u.segments)
  }

  /** The node a request is for, read off its layer and range. */
  ghost function Asked(u: Setup, r: Request): Node
    requires u.Valid()
  {
    match r
    case LeafRequest(_, start, _) => Node(1, start / u.config.leafArity)
    case InternalRequest(_, layer, start, _, _, _, _) => Node(layer + 2, InternalIdx(start, layer, u.config.leafArity, u.config.internalArity))
    case EvmRequest(_, _, _) => Node(P(u).Top() + 1, 0)
  }

  ghost predicate Good(u: Setup, r: Request)
    requires u.Valid()
  {
    AsksFor(u.config, P(u), r, Asked(u, r))
  }

  ghost predicate AllGood(u: Setup, rs: seq<Request>)
    requires u.Valid()
  {
    forall r :: r in rs ==> Good(u, r)
  }

  lemma AskedIs(u: Setup, r: Request, n: Node)
    requires u.Valid() && AsksFor(u.config, P(u), r, n)
    ensures Asked(u, r) == n && Good(u, r)
  {
    if r.LeafRequest? {
      LeafKeyFacts(u.config, P(u), n.idx);
    } else if r.InternalRequest? {
      InternalIdxOf(u.config, P(u), n);
    }
  }

  // ---- requests in a sequence ----

  ghost function Count(u: Setup, rs: seq<Request>, n: Node): nat
    requires u.Valid()
  {
    if rs == [] then 0 else Count(u, rs[..|rs| - 1], n) + Bit(Asked(u, rs[|rs| - 1]) == n)
  }

  lemma {:induction false} CountConcat(u: Setup, rs: seq<Request>, rs': seq<Request>, n: Node)
    requires u.Valid()
    ensures Count(u, rs + rs', n) == Count(u, rs, n) + Count(u, rs', n)
  {
    hide Asked;
    if rs' == [] {
      assert rs + rs' == rs;
    } else {
      var m := |rs'| - 1;
      assert (rs + rs')[..|rs + rs'| - 1] == rs + rs'[..m];
      CountConcat(u, rs, rs'[..m], n);
    }
  }

  lemma CountOne(u: Setup, r: Request, n: Node)
    requires u.Valid()
    ensures Count(u, [r], n) == Bit(Asked(u, r) == n)
  {
    hide Asked;
    assert [r][..0] == [];
    assert Count(u, [], n) == 0;
  }

  lemma CountHead(u: Setup, rs: seq<Request>, n: Node)
    requires u.Valid() && rs != []
    ensures Count(u, rs, n) == Bit(Asked(u, rs[0]) == n) + Count(u, rs[1..], n)
  {
    assert rs == [rs[0]] + rs[1..];
    CountConcat(u, [rs[0]], rs[1..], n);
    CountOne(u, rs[0], n);
  }

  lemma {:induction false} CountInsert(u: Setup, q: seq<Request>, r: Request, n: Node)
    requires u.Valid()
    ensures Count(u, Insert(q, r), n) == Count(u, q, n) + Bit(Asked(u, r) == n)
  {
    hide Asked, Class;
    CountHead(u, Insert(q, r), n);
    if q == [] || Class(r) < Class(q[0]) {
      assert Insert(q, r)[1..] == q;
    } else {
      assert Insert(q, r)[1..] == Insert(q[1..], r);
      CountInsert(u, q[1..], r, n);
      CountHead(u, q, n);
    }
  }

  lemma {:induction false} CountedIsIn(u: Setup, rs: seq<Request>, n: Node) returns (r: Request)
    requires u.Valid() && Count(u, rs, n) > 0
    ensures r in rs && Asked(u, r) == n
  {
    var m := |rs| - 1;
    if Asked(u, rs[m]) == n {
      r := rs[m];
    } else {
      r := CountedIsIn(u, rs[..m], n);
    }
  }

  lemma {:induction false} InIsCounted(u: Setup, rs: seq<Request>, r: Request)
    requires u.Valid() && r in rs
    ensures Count(u, rs, Asked(u, r)) > 0
  {
    hide Asked;
    var m := |rs| - 1;
    if rs[m] != r {
      assert r in rs[..m];
      InIsCounted(u, rs[..m], r);
    }
  }

  // ---- jobs and handlers ----

  /** What can be counted: jobs for a node, slots held on a worker, app and count messages. */
  datatype Measure = Asking(node: Node) | SlotOn(worker: nat, slot: ActiveProof) | AppFrom(segment: nat) | CountMessage

  ghost function JobWeight(u: Setup, j: Assigned, m: Measure): nat
    requires u.Valid()
  {
    match m
    case Asking(n) => Bit(Asked(u, j.request) == n)
    case SlotOn(w, x) => Bit(j.workerId == w && Slot(j.request) == x)
    case _ => 0
  }

  /** The slot a result is waiting to give back. */
  ghost function SlotOfResult(r: ProofResult): Option<ActiveProof> {
    match r
    case LeafResult(_) => Some(ActiveProof(LeafProve, None))
    case InternalResult(x) => Some(ActiveProof(InternalProve, Some(x.layerIdx)))
    case EvmResult(_) => Some(ActiveProof(EvmProve, None))
    case _ => None
  }

  ghost function HandlerWeight(u: Setup, h: Handler, m: Measure): nat
    requires u.Valid()
  {
    match m
    case Asking(n) => Count(u, h.followUps, n)
    case SlotOn(w, x) => Bit(!h.accounted && h.worker == w && SlotOfResult(h.result) == Some(x))
    case AppFrom(i) => Bit(!h.accounted && h.result.AppResult? && h.result.app.segmentIdx == i)
    case CountMessage => Bit(!h.accounted && h.result.ExecuteE2Result?)
  }

  ghost function Jobs(u: Setup, js: seq<Assigned>, m: Measure): nat
    requires u.Valid()
  {
    if js == [] then 0 else Jobs(u, js[..|js| - 1], m) + JobWeight(u, js[|js| - 1], m)
  }

  ghost function Handlers(u: Setup, hs: seq<Handler>, m: Measure): nat
    requires u.Valid()
  {
    if hs == [] then 0 else Handlers(u, hs[..|hs| - 1], m) + HandlerWeight(u, hs[|hs| - 1], m)
  }

  lemma {:induction false} JobsConcat(u: Setup, js: seq<Assigned>, js': seq<Assigned>, m: Measure)
    requires u.Valid()
    ensures Jobs(u, js + js', m) == Jobs(u, js, m) + Jobs(u, js', m)
  {
    hide JobWeight;
    if js' == [] {
      assert js + js' == js;
    } else {
      assert (js + js')[..|js + js'| - 1] == js + js'[..|js'| - 1];
      JobsConcat(u, js, js'[..|js'| - 1], m);
    }
  }

  lemma JobsOne(u: Setup, j: Assigned, m: Measure)
    requires u.Valid()
    ensures Jobs(u, [j], m) == JobWeight(u, j, m)
  {
    hide JobWeight;
    assert [j][..0] == [];
    assert Jobs(u, [], m) == 0;
  }

  lemma JobsRemove(u: Setup, js: seq<Assigned>, i: nat, m: Measure)
    requires u.Valid() && i < |js|
    ensures Jobs(u, js, m) == Jobs(u, js[..i] + js[i + 1..], m) + JobWeight(u, js[i], m)
  {
    hide JobWeight;
    assert js == js[..i] + ([js[i]] + js[i + 1..]);
    JobsConcat(u, js[..i], [js[i]] + js[i + 1..], m);
    JobsConcat(u, [js[i]], js[i + 1..], m);
    JobsConcat(u, js[..i], js[i + 1..], m);
    JobsOne(u, js[i], m);
  }

  lemma HandlersAppend(u: Setup, hs: seq<Handler>, h: Handler, m: Measure)
    requires u.Valid()
    ensures Handlers(u, hs + [h], m) == Handlers(u, hs, m) + HandlerWeight(u, h, m)
  {
    assert (hs + [h])[..|hs|] == hs;
  }

  lemma {:induction false} HandlersUpdate(u: Setup, hs: seq<Handler>, i: nat, h: Handler, m: Measure)
    requires u.Valid() && i < |hs|
    ensures Handlers(u, hs[i := h], m) + HandlerWeight(u, hs[i], m) == Handlers(u, hs, m) + HandlerWeight(u, h, m)
  {
    hide HandlerWeight;
    var k := |hs| - 1;
    if i == k {
      assert hs[i := h][..k] == hs[..k];
    } else {
      assert hs[i := h][..k] == hs[..k][i := h];
      HandlersUpdate(u, hs[..k], i, h, m);
    }
  }

  lemma {:induction false} HandlersAtLeast(u: Setup, hs: seq<Handler>, i: nat, m: Measure)
    requires u.Valid() && i < |hs|
    ensures Handlers(u, hs, m) >= HandlerWeight(u, hs[i], m)
  {
    hide HandlerWeight;
    if i < |hs| - 1 {
      assert hs[..|hs| - 1][i] == hs[i];
      HandlersAtLeast(u, hs[..|hs| - 1], i, m);
    }
  }

  lemma {:induction false} CountedHandler(u: Setup, hs: seq<Handler>, m: Measure) returns (i: nat)
    requires u.Valid() && Handlers(u, hs, m) > 0
    ensures i < |hs| && HandlerWeight(u, hs[i], m) > 0
  {
    hide HandlerWeight;
    var k := |hs| - 1;
    if HandlerWeight(u, hs[k], m) > 0 {
      i := k;
    } else {
      i := CountedHandler(u, hs[..k], m);
    }
  }

  lemma {:induction false} CountedJob(u: Setup, js: seq<Assigned>, m: Measure) returns (i: nat)
    requires u.Valid() && Jobs(u, js, m) > 0
    ensures i < |js| && JobWeight(u, js[i], m) > 0
  {
    hide JobWeight;
    var k := |js| - 1;
    if JobWeight(u, js[k], m) > 0 {
      i := k;
    } else {
      i := CountedJob(u, js[..k], m);
    }
  }
}
