/** Worker registration (`worker_registry.rs`), and why `segment % num_workers` is a partition
  * of the segments once the registry reports itself ready. */
module Registry {
  import opened Arithmetic
  import opened Protocol
  import opened ProofDriver
  import opened Scheduler
  import opened SchedulerFacts
  import opened Manager

  datatype Result<+T> = Ok(value: T) | Err(error: string)

  datatype ProversConfig = ProversConfig(maxAppProvers: nat, maxLeafProvers: nat, maxInternalProvers: nat)

  datatype RegisteredWorker = RegisteredWorker(url: string, role: Role)

  datatype Registration = Registration(url: string, id: nat, provers: ProversConfig, role: Role)

  datatype Book = Book(
    expectedWorkers: nat,
    expectedProvers: ProversConfig,
    nextWorkerId: nat,
    workers: map<nat, RegisteredWorker>,
    urlToId: map<string, nat>)
  {
    /** The two maps are inverse to each other, ids stay below the expected count, and the next id is one
      * above the greatest. */
    ghost predicate Valid() {
      && (forall id :: id in workers ==> id < nextWorkerId && workers[id].url in urlToId && urlToId[workers[id].url] == id)
      && (forall url :: url in urlToId ==> urlToId[url] in workers && workers[urlToId[url]].url == url)
      && nextWorkerId <= expectedWorkers && (nextWorkerId > 0 ==> nextWorkerId - 1 in workers)
    }
  }

  predicate ProversFit(expected: ProversConfig, reported: ProversConfig, role: Role) {
    match role
    case EvmDedicated => reported == ProversConfig(0, 0, 0)
    case _ => reported == expected
  }

  function Registered(b: Book, r: Registration): (Book, Result<nat>) {
    if !ProversFit(b.expectedProvers, r.provers, r.role) then (b, Err("provers config does not fit the worker's role"))
    else if r.id >= b.expectedWorkers then (b, Err("worker_id out of range"))
    else if r.url in b.urlToId then
      var existing := b.urlToId[r.url];
      if r.id != existing then (b, Err("worker URL already bound to another worker_id"))
      else if existing in b.workers then (b.(workers := b.workers[existing := b.workers[existing].(role := r.role)]), Ok(existing))
      else (b, Ok(existing))
    else if r.id in b.workers && b.workers[r.id].url != r.url then (b, Err("worker_id already bound to another URL"))
    else (b.(nextWorkerId := if b.nextWorkerId >= r.id + 1 then b.nextWorkerId else r.id + 1,
             workers := b.workers[r.id := RegisteredWorker(r.url, r.role)], urlToId := b.urlToId[r.url := r.id]), Ok(r.id))
  }

  function RegisterAll(expectedWorkers: nat, expectedProvers: ProversConfig, rs: seq<Registration>): Book {
    if rs == [] then Book(expectedWorkers, expectedProvers, 0, map[], map[])
    else Registered(RegisterAll(expectedWorkers, expectedProvers, rs[..|rs| - 1]), rs[|rs| - 1]).0
  }

  lemma RegisterKeepsValid(b: Book, r: Registration)
    requires b.Valid()
    ensures var b' := Registered(b, r).0;
            b'.Valid() && b'.expectedWorkers == b.expectedWorkers && b'.expectedProvers == b.expectedProvers
  {
    hide ProversFit;
  }

  /** One registration: accepted exactly when the capacities are the deployment's, or none at all for
    * a dedicated worker, the id is in range and neither the URL nor the id is bound elsewhere; then
    * the two are bound to each other, with the reported role, and every other binding is as before.
    * A refusal changes nothing. */
  lemma RegisterBinds(b: Book, r: Registration)
    requires b.Valid()
    ensures var (b', result) := Registered(b, r);
            && b'.Valid() && b'.expectedWorkers == b.expectedWorkers && b'.expectedProvers == b.expectedProvers
            && (result.Ok? <==>
                  && (if r.role.EvmDedicated? then r.provers == ProversConfig(0, 0, 0) else r.provers == b.expectedProvers)
                  && r.id < b.expectedWorkers
                  && (r.url in b.urlToId ==> b.urlToId[r.url] == r.id) && (r.id in b.workers ==> b.workers[r.id].url == r.url))
            && (result.Ok? ==>
                  && result.value == r.id && r.id in b'.workers && b'.workers[r.id] == RegisteredWorker(r.url, r.role)
                  && (forall id :: id != r.id ==> (id in b'.workers <==> id in b.workers))
                  && (forall id :: id in b.workers && id != r.id ==> b'.workers[id] == b.workers[id])
                  && (forall url :: url != r.url ==> (url in b'.urlToId <==> url in b.urlToId)))
            && (result.Err? ==> b' == b)
  {
    RegisterKeepsValid(b, r);
  }

  /** Whatever is registered, in whatever order, the maps stay inverse and the ids in range. */
  lemma {:induction false} AnyRegistrationsKeepBook(n: nat, provers: ProversConfig, rs: seq<Registration>)
    ensures var b := RegisterAll(n, provers, rs); b.Valid() && b.expectedWorkers == n
  {
    if rs != [] {
      AnyRegistrationsKeepBook(n, provers, rs[..|rs| - 1]);
      RegisterBinds(RegisterAll(n, provers, rs[..|rs| - 1]), rs[|rs| - 1]);
    }
  }

  class EdgeWorkerRegistry {
    const expectedWorkers: nat
    const expectedProvers: ProversConfig
    var nextWorkerId: nat
    var workers: map<nat, RegisteredWorker>
    var urlToId: map<string, nat>

    ghost function View(): Book
      reads this
    {
      Book(expectedWorkers, expectedProvers, nextWorkerId, workers, urlToId)
    }

    constructor (expectedWorkers: nat, expectedProvers: ProversConfig)
      ensures View() == RegisterAll(expectedWorkers, expectedProvers, [])
    {
      this.expectedWorkers, this.expectedProvers := expectedWorkers, expectedProvers;
      nextWorkerId, workers, urlToId := 0, map[], map[];
    }

    method ValidateProvers(reported: ProversConfig, role: Role) returns (fits: bool)
      ensures fits == ProversFit(expectedProvers, reported, role)
    {
      match role {
        case EvmDedicated =>
          fits := reported.maxAppProvers == 0 && reported.maxLeafProvers == 0 && reported.maxInternalProvers == 0;
        case _ => fits := reported == expectedProvers;
      }
    }

    method Register(r: Registration) returns (result: Result<nat>)
      modifies this
      ensures (View(), result) == Registered(old(View()), r)
    {
      var fits := ValidateProvers(r.provers, r.role);
      if !fits {
        return Err("provers config does not fit the worker's role");
      }
      if r.id >= expectedWorkers {
        return Err("worker_id out of range");
      }
      if r.url in urlToId {
        var existing := urlToId[r.url];
        if r.id != existing {
          return Err("worker URL already bound to another worker_id");
        }
        if existing in workers {
          workers := workers[existing := workers[existing].(role := r.role)];
        }
        return Ok(existing);
      }
      if r.id in workers {
        if workers[r.id].url != r.url {
          return Err("worker_id already bound to another URL");
        }
      }
      if nextWorkerId < r.id + 1 {
        nextWorkerId := r.id + 1;
      }
      workers := workers[r.id := RegisteredWorker(r.url, r.role)];
      urlToId := urlToId[r.url := r.id];
      result := Ok(r.id);
    }

    /** Ready exactly when every id is registered and every dedicated worker sits above all others;
      * then the answer is the workers in id order. */
    method ReadyWorkers() returns (result: Result<seq<(nat, RegisteredWorker)>>)
      requires View().Valid()
      ensures result.Ok? <==> IsReady(View())
      ensures result.Ok? ==> result.value == Listing(workers, expectedWorkers)
    {
      if workers == map[] {
        assert 0 !in workers;
        return Err("No Edge workers have registered yet");
      }
      var list := SortById(workers);
      if |list| != expectedWorkers {
        ReadyMeansCounted(View());
        return Err("registration is incomplete");
      }
      for id := 0 to expectedWorkers
        invariant forall i :: 0 <= i < id ==> i in workers
      {
        if id !in workers {
          return Err("worker IDs missing");
        }
      }
      SortedIsListing(list, workers, expectedWorkers);
      var eligible := AppEligible(list);
      assert list == list[..|list|];
      for i := 0 to |eligible|
        invariant forall k :: 0 <= k < i ==> eligible[k].0 == k
      {
        if eligible[i].0 != i {
          NotPrefix(workers, expectedWorkers, i);
          return Err("App-eligible worker IDs must be contiguous");
        }
      }
      PrefixMeansReady(workers, expectedWorkers);
      result := Ok(list);
    }
  }

  ghost predicate IsReady(b: Book) {
    && b.expectedWorkers >= 1
    && (forall i :: 0 <= i < b.expectedWorkers ==> i in b.workers)
    && (forall i, j :: 0 <= i < j < b.expectedWorkers && b.workers[j].role.RunsStarkProving() ==> b.workers[i].role.RunsStarkProving())
  }

  // ---- the sorted listing ----

  function Listing(workers: map<nat, RegisteredWorker>, n: nat): seq<(nat, RegisteredWorker)>
    requires forall i :: 0 <= i < n ==> i in workers
  {
    seq(n, i requires 0 <= i < n => (i, workers[i]))
  }

  ghost predicate SortedEntries(list: seq<(nat, RegisteredWorker)>) {
    forall i, j :: 0 <= i < j < |list| ==> list[i].0 < list[j].0
  }

  method SortById(workers: map<nat, RegisteredWorker>) returns (list: seq<(nat, RegisteredWorker)>)
    ensures SortedEntries(list) && |list| == |workers|
    ensures forall x :: x in list <==> x.0 in workers && workers[x.0] == x.1
  {
    list := [];
    var rest := workers.Keys;
    while rest != {}
      invariant rest <= workers.Keys && SortedEntries(list) && |list| + |rest| == |workers|
      invariant forall x :: x in list <==> x.0 in workers && x.0 !in rest && workers[x.0] == x.1
      decreases |rest|
    {
      var id :| id in rest;
      list := InsertById(list, (id, workers[id]));
      rest := rest - {id};
    }
  }

  method InsertById(list: seq<(nat, RegisteredWorker)>, x: (nat, RegisteredWorker)) returns (more: seq<(nat, RegisteredWorker)>)
    requires SortedEntries(list) && forall y :: y in list ==> y.0 != x.0
    ensures SortedEntries(more) && |more| == |list| + 1
    ensures forall y :: y in more <==> y in list || y == x
  {
    var i := 0;
    while i < |list| && list[i].0 < x.0
      invariant 0 <= i <= |list|
      invariant forall k :: 0 <= k < i ==> list[k].0 < x.0
    {
      i := i + 1;
    }
    assert i < |list| ==> list[i] in list;
    InsertedAt(list, i, x);
    more := list[..i] + [x] + list[i..];
  }

  lemma InsertedAt(list: seq<(nat, RegisteredWorker)>, i: nat, x: (nat, RegisteredWorker))
    requires SortedEntries(list) && i <= |list|
    requires (forall k :: 0 <= k < i ==> list[k].0 < x.0) && (i < |list| ==> x.0 < list[i].0)
    ensures SortedEntries(list[..i] + [x] + list[i..])
    ensures forall y :: y in list[..i] + [x] + list[i..] <==> y in list || y == x
  {
    assert forall y :: y in list <==> y in list[..i] || y in list[i..] by {
      hide SortedEntries;
      assert list == list[..i] + list[i..];
    }
  }

  /** Strictly sorted ids grow at least as fast as their positions. */
  lemma {:induction false} IdsGrow(list: seq<(nat, RegisteredWorker)>, i: nat, j: nat)
    requires SortedEntries(list) && i <= j < |list|
    ensures list[j].0 >= list[i].0 + (j - i)
    decreases j
  {
    if i < j {
      IdsGrow(list, i, j - 1);
    }
  }

  lemma SortedIsListing(list: seq<(nat, RegisteredWorker)>, workers: map<nat, RegisteredWorker>, n: nat)
    requires SortedEntries(list) && |list| == n && forall x :: x in list <==> x.0 in workers && workers[x.0] == x.1
    requires forall i :: i in workers <==> 0 <= i < n
    ensures list == Listing(workers, n)
  {
    forall i | 0 <= i < n ensures list[i] == (i, workers[i]) {
      IdsGrow(list, 0, i);
      IdsGrow(list, i, n - 1);
      assert list[i] in list && list[n - 1] in list;
    }
  }

  /** Count plus bound already forces contiguity: with ids below `n`, having `n` workers means
    * having every id, so the missing-id check can never be the one that fails. */
  lemma CountForcesContiguity(b: Book)
    requires b.Valid()
    ensures |b.workers| == b.expectedWorkers <==> b.workers.Keys == Below(b.expectedWorkers)
  {
    var ids := Below(b.expectedWorkers);
    assert b.workers.Keys <= ids;
    assert |b.workers| == |b.workers.Keys|;
    if |b.workers| == b.expectedWorkers {
      SubsetSize(b.workers.Keys, ids);
    }
  }

  lemma ReadyMeansCounted(b: Book)
    requires b.Valid()
    ensures IsReady(b) ==> |b.workers| == b.expectedWorkers
  {
    CountForcesContiguity(b);
    if IsReady(b) {
      assert forall i :: i in Below(b.expectedWorkers) ==> i in b.workers.Keys;
      assert b.workers.Keys == Below(b.expectedWorkers);
    }
  }

  // ---- the app-eligible workers ----

  function AppEligible(list: seq<(nat, RegisteredWorker)>): seq<(nat, RegisteredWorker)> {
    if list == [] then []
    else AppEligible(list[..|list| - 1]) + if list[|list| - 1].1.role.RunsStarkProving() then [list[|list| - 1]] else []
  }

  /** `e` is the eligible workers of ids `0 .. n - 1`, in id order. */
  ghost predicate EligibleFor(e: seq<(nat, RegisteredWorker)>, workers: map<nat, RegisteredWorker>, n: nat)
    requires forall i :: 0 <= i < n ==> i in workers
  {
    && |e| <= n && SortedEntries(e)
    && (forall k :: 0 <= k < |e| ==> k <= e[k].0 < n && e[k].1 == workers[e[k].0] && e[k].1.role.RunsStarkProving())
    && (forall id :: 0 <= id < n && workers[id].role.RunsStarkProving() ==> exists k :: 0 <= k < |e| && e[k].0 == id)
  }

  lemma {:induction false} EligibleOf(workers: map<nat, RegisteredWorker>, n: nat)
    requires forall i :: 0 <= i < n ==> i in workers
    ensures EligibleFor(AppEligible(Listing(workers, n)), workers, n)
  {
    if n > 0 {
      EligibleOf(workers, n - 1);
      assert Listing(workers, n)[..n - 1] == Listing(workers, n - 1);
      EligibleStep(AppEligible(Listing(workers, n - 1)), workers, n);
      hide EligibleFor;
      assert AppEligible(Listing(workers, n - 1)) + [] == AppEligible(Listing(workers, n - 1));
    }
  }

  lemma EligibleStep(e: seq<(nat, RegisteredWorker)>, workers: map<nat, RegisteredWorker>, n: nat)
    requires n > 0 && (forall i :: 0 <= i < n ==> i in workers) && EligibleFor(e, workers, n - 1)
    ensures EligibleFor(e + if workers[n - 1].role.RunsStarkProving() then [(n - 1, workers[n - 1])] else [], workers, n)
  {
    if workers[n - 1].role.RunsStarkProving() {
      var e' := e + [(n - 1, workers[n - 1])];
      assert e'[|e|].0 == n - 1;
      forall id | 0 <= id < n - 1 && workers[id].role.RunsStarkProving() ensures exists k :: 0 <= k < |e'| && e'[k].0 == id {
        var k :| 0 <= k < |e| && e[k].0 == id;
        assert e'[k].0 == id;
      }
    } else {
      assert e + [] == e;
    }
  }

  lemma NoPositionFor(e: seq<(nat, RegisteredWorker)>, i: nat)
    requires SortedEntries(e) && i < |e| && e[i].0 > i && forall k :: 0 <= k < i ==> e[k].0 == k
    ensures forall k :: 0 <= k < |e| ==> e[k].0 != i
  {
  }

  lemma NotPrefix(workers: map<nat, RegisteredWorker>, n: nat, i: nat)
    requires forall i :: 0 <= i < n ==> i in workers
    requires var e := AppEligible(Listing(workers, n));
             i < |e| && e[i].0 != i && forall k :: 0 <= k < i ==> e[k].0 == k
    ensures exists j, k :: 0 <= j < k < n && workers[k].role.RunsStarkProving() && !workers[j].role.RunsStarkProving()
  {
    var e := AppEligible(Listing(workers, n));
    EligibleOf(workers, n);
    NoPositionFor(e, i);
    assert workers[e[i].0].role.RunsStarkProving() && !workers[i].role.RunsStarkProving();
  }

  lemma PrefixMeansReady(workers: map<nat, RegisteredWorker>, n: nat)
    requires forall i :: 0 <= i < n ==> i in workers
    requires var e := AppEligible(Listing(workers, n)); forall k :: 0 <= k < |e| ==> e[k].0 == k
    ensures forall i, j :: 0 <= i < j < n && workers[j].role.RunsStarkProving() ==> workers[i].role.RunsStarkProving()
  {
    var e := AppEligible(Listing(workers, n));
    EligibleOf(workers, n);
    forall i, j | 0 <= i < j < n && workers[j].role.RunsStarkProving() ensures workers[i].role.RunsStarkProving() {
      var k :| 0 <= k < |e| && e[k].0 == j;
      assert e[i].0 == i;
    }
  }

  /** Whenever the registry is ready, the app-eligible workers are exactly ids `0 .. M - 1`. */
  lemma ReadyMeansPrefix(b: Book)
    requires b.Valid() && IsReady(b)
    ensures var e := AppEligible(Listing(b.workers, b.expectedWorkers));
            && (forall k :: 0 <= k < |e| ==> e[k].0 == k)
            && (forall id :: 0 <= id < b.expectedWorkers ==> (b.workers[id].role.RunsStarkProving() <==> id < |e|))
  {
    var n, e := b.expectedWorkers, AppEligible(Listing(b.workers, b.expectedWorkers));
    EligibleOf(b.workers, n);
    forall k: nat | k < |e| ensures e[k].0 == k {
      EligibleAt(b, k);
    }
    forall id | 0 <= id < n ensures b.workers[id].role.RunsStarkProving() <==> id < |e| {
      if b.workers[id].role.RunsStarkProving() {
        var k :| 0 <= k < |e| && e[k].0 == id;
      }
      if id < |e| {
        assert e[id].0 == id;
      }
    }
  }

  lemma {:induction false} EligibleAt(b: Book, k: nat)
    requires b.Valid() && IsReady(b) && k < |AppEligible(Listing(b.workers, b.expectedWorkers))|
    ensures AppEligible(Listing(b.workers, b.expectedWorkers))[k].0 == k
  {
    var n, e := b.expectedWorkers, AppEligible(Listing(b.workers, b.expectedWorkers));
    EligibleOf(b.workers, n);
    forall l | 0 <= l < k ensures e[l].0 == l {
      EligibleAt(b, l);
    }
    var id := e[k].0;
    assert b.workers[id].role.RunsStarkProving() && k <= id < n;
    assert b.workers[k].role.RunsStarkProving();
    if id > k {
      NoPositionFor(e, k);
    }
  }

  // ---- the partition ----

  ghost function SumOfShards(workers: nat, total: nat, numWorkers: nat): nat
    requires numWorkers > 0
  {
    if workers == 0 then 0 else SumOfShards(workers - 1, total, numWorkers) + ExpectedSegments(workers - 1, total, numWorkers)
  }

  lemma {:induction false} OneMoreSegment(workers: nat, total: nat, numWorkers: nat)
    requires workers <= numWorkers && total > 0 && numWorkers > 0
    ensures SumOfShards(workers, total, numWorkers) ==
            SumOfShards(workers, total - 1, numWorkers) + if (total - 1) % numWorkers < workers then 1 else 0
  {
    if workers > 0 {
      OneMoreSegment(workers - 1, total, numWorkers);
      ExpectedStep(workers - 1, total, numWorkers);
    }
  }

  lemma {:induction false} NoSegments(workers: nat, numWorkers: nat)
    requires numWorkers > 0
    ensures SumOfShards(workers, 0, numWorkers) == 0
  {
    if workers > 0 {
      NoSegments(workers - 1, numWorkers);
    }
  }

  /** Over `M` workers the per-worker expected counts sum to the number of segments. */
  lemma {:induction false} ShardsSumToTotal(total: nat, numWorkers: nat)
    requires numWorkers > 0
    ensures SumOfShards(numWorkers, total, numWorkers) == total
  {
    if total == 0 {
      NoSegments(numWorkers, numWorkers);
    } else {
      ShardsSumToTotal(total - 1, numWorkers);
      OneMoreSegment(numWorkers, total, numWorkers);
    }
  }

  /** Registry to partition: when ready with `M >= 1` app-eligible workers, every segment belongs
    * to exactly one of them, and their expected counts, which are their shards' sizes, sum to the
    * number of segments. */
  lemma ReadyPartitionsSegments(b: Book, total: nat, segment: nat)
    requires b.Valid() && IsReady(b) && segment < total
    requires |AppEligible(Listing(b.workers, b.expectedWorkers))| >= 1
    ensures var e := AppEligible(Listing(b.workers, b.expectedWorkers));
            && (exists k :: 0 <= k < |e| && segment in Shard(e[k].0, total, |e|))
            && (forall k, l :: 0 <= k < l < |e| ==> !(segment in Shard(e[k].0, total, |e|) && segment in Shard(e[l].0, total, |e|)))
            && (forall k :: 0 <= k < |e| ==> |Shard(e[k].0, total, |e|)| == ExpectedSegments(e[k].0, total, |e|))
            && SumOfShards(|e|, total, |e|) == total
  {
    var e := AppEligible(Listing(b.workers, b.expectedWorkers));
    ReadyMeansPrefix(b);
    ShardsSumToTotal(total, |e|);
    hide AppEligible, ExpectedSegments, SumOfShards;
    var owner := segment % |e|;
    assert e[owner].0 == owner && segment in Shard(e[owner].0, total, |e|);
    forall k: nat | k < |e| ensures |Shard(e[k].0, total, |e|)| == ExpectedSegments(e[k].0, total, |e|) {
      ShardSize(e[k].0, total, |e|);
    }
  }

  // ---- what this gives a started proof ----

  ghost function RolesOf(b: Book): seq<Role>
    requires IsReady(b)
  {
    seq(b.expectedWorkers, i requires 0 <= i < b.expectedWorkers => b.workers[i].role)
  }

  lemma {:induction false} StarkCountOfPrefix(ready: seq<(nat, Role)>, m: nat)
    requires m <= |ready| && forall i :: 0 <= i < |ready| ==> (ready[i].1.RunsStarkProving() <==> i < m)
    ensures StarkCount(ready) == m
  {
    if ready != [] {
      var n := |ready| - 1;
      StarkCountOfPrefix(ready[..n], if m <= n then m else n);
    }
  }

  /** A ready registry discharges what a started proof assumes of its workers. */
  lemma ReadyRegistryGivesSetup(b: Book, u: Setup)
    requires b.Valid() && IsReady(b) && u.roles == RolesOf(b) && u.config.Valid() && u.segments >= 1
    requires exists i :: 0 <= i < b.expectedWorkers && b.workers[i].role.RunsStarkProving()
    requires u.config.proofType.Evm? ==> exists i :: 0 <= i < b.expectedWorkers && b.workers[i].role.RunsEvmProve()
    ensures u.Valid() && u.StarkWorkers() == |AppEligible(Listing(b.workers, b.expectedWorkers))|
  {
    hide AppEligible, Listing, Book.Valid, StarkCount;
    var m := |AppEligible(Listing(b.workers, b.expectedWorkers))|;
    RolesAre(b, u);
    PrefixCount(b, m);
    StarkWorkersAre(u, m);
    hide IsReady, Setup.StarkWorkers;
    if u.config.proofType.Evm? {
      var i :| 0 <= i < b.expectedWorkers && b.workers[i].role.RunsEvmProve();
      assert u.roles[i].RunsEvmProve();
    }
  }

  lemma PrefixCount(b: Book, m: nat)
    requires b.Valid() && IsReady(b) && m == |AppEligible(Listing(b.workers, b.expectedWorkers))|
    ensures m <= b.expectedWorkers
    ensures forall i :: 0 <= i < b.expectedWorkers ==> (b.workers[i].role.RunsStarkProving() <==> i < m)
  {
    hide AppEligible, Listing, Book.Valid;
    ReadyMeansPrefix(b);
    EligibleOf(b.workers, b.expectedWorkers);
    if m > 0 {
      var last := AppEligible(Listing(b.workers, b.expectedWorkers))[m - 1].0;
      assert last == m - 1;
    }
  }

  lemma StarkWorkersAre(u: Setup, m: nat)
    requires m <= |u.roles| && forall i :: 0 <= i < |u.roles| ==> (u.roles[i].RunsStarkProving() <==> i < m)
    ensures u.StarkWorkers() == m
  {
    hide StarkCount;
    assert forall i :: 0 <= i < |u.roles| ==> u.Ready()[i].1 == u.roles[i];
    StarkCountOfPrefix(u.Ready(), m);
  }

  lemma RolesAre(b: Book, u: Setup)
    requires IsReady(b) && u.roles == RolesOf(b)
    ensures |u.roles| == b.expectedWorkers && forall i :: 0 <= i < |u.roles| ==> u.roles[i] == b.workers[i].role
  {
  }
}
