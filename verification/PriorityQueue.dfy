/** The pending-work queue of `priority_queue.rs`. A queue is specified as one sequence
  * sorted by class (leaf, then internal layers with 9 and above together, then the EVM
  * step): a push inserts stably, a pop takes the head. */
module PriorityQueue {
  import opened Protocol

  const MAX_LAYERS: nat := 10

  function Class(r: Request): nat {
    match r
    case LeafRequest(_, _, _) => 0
    case InternalRequest(_, layer, _, _, _, _, _) => 1 + if layer < MAX_LAYERS then layer else MAX_LAYERS - 1
    case EvmRequest(_, _, _) => 1 + MAX_LAYERS
  }

  ghost predicate Sorted(q: seq<Request>) {
    forall i, j :: 0 <= i < j < |q| ==> Class(q[i]) <= Class(q[j])
  }

  /** The order of service, request by request: leaves first, then internal layers from the lowest up
    * with 9 and above alike, the EVM step last. */
  ghost predicate NoLaterThan(a: Request, b: Request) {
    || a.LeafRequest? || b.EvmRequest?
    || (a.InternalRequest? && b.InternalRequest? && (a.layerIdx <= b.layerIdx || b.layerIdx >= 9))
  }

  ghost predicate InServiceOrder(q: seq<Request>) {
    forall i, j :: 0 <= i < j < |q| ==> NoLaterThan(q[i], q[j])
  }

  lemma ClassIsServiceOrder(a: Request, b: Request)
    ensures Class(a) <= Class(b) <==> NoLaterThan(a, b)
  {
  }

  lemma SortedIsInServiceOrder(q: seq<Request>)
    ensures Sorted(q) <==> InServiceOrder(q)
  {
    hide Class, NoLaterThan;
    forall i, j | 0 <= i < j < |q| ensures Class(q[i]) <= Class(q[j]) <==> NoLaterThan(q[i], q[j]) {
      ClassIsServiceOrder(q[i], q[j]);
    }
  }

  /** Behind everything of its own class, in front of every later class. */
  function Insert(q: seq<Request>, r: Request): (q': seq<Request>)
    ensures |q'| == |q| + 1
  {
    if q == [] || Class(r) < Class(q[0]) then [r] + q else [q[0]] + Insert(q[1..], r)
  }

  /** Queueing loses and duplicates nothing. */
  lemma {:induction false} InsertKeepsItems(q: seq<Request>, r: Request)
    ensures multiset(Insert(q, r)) == multiset(q) + multiset{r}
  {
    if q != [] && Class(q[0]) <= Class(r) {
      InsertKeepsItems(q[1..], r);
      assert q == [q[0]] + q[1..];
    }
  }

  function OfClass(q: seq<Request>, c: nat): seq<Request> {
    if q == [] then [] else (if Class(q[0]) == c then [q[0]] else []) + OfClass(q[1..], c)
  }

  lemma SortedCons(x: Request, q: seq<Request>)
    requires Sorted(q) && forall y :: y in q ==> Class(x) <= Class(y)
    ensures Sorted([x] + q)
  {
    hide Class;
  }

  lemma SortedParts(q: seq<Request>)
    requires Sorted(q) && q != []
    ensures Sorted(q[1..]) && forall y :: y in q ==> Class(q[0]) <= Class(y)
  {
    hide Class;
  }

  lemma {:induction false} InsertSorted(q: seq<Request>, r: Request)
    requires Sorted(q)
    ensures Sorted(Insert(q, r))
  {
    hide Sorted, Class;
    if q == [] {
      SortedCons(r, q);
    } else {
      SortedParts(q);
      if Class(r) < Class(q[0]) {
        SortedCons(r, q);
      } else {
        InsertSorted(q[1..], r);
        InsertKeepsItems(q[1..], r);
        forall x | x in Insert(q[1..], r) ensures Class(q[0]) <= Class(x) {
          assert x in multiset(Insert(q[1..], r));
        }
        SortedCons(q[0], Insert(q[1..], r));
      }
    }
  }

  /** A push goes to the back of its own class and touches no other class. */
  lemma {:induction false} InsertIsFifoPerClass(q: seq<Request>, r: Request, c: nat)
    requires Sorted(q)
    ensures OfClass(Insert(q, r), c) == OfClass(q, c) + if Class(r) == c then [r] else []
  {
    if q == [] || Class(r) < Class(q[0]) {
      assert ([r] + q)[1..] == q;
      if Class(r) == c {
        NoneOfClass(q, c);
      }
    } else {
      InsertIsFifoPerClass(q[1..], r, c);
      OfClassCons(q[0], q[1..], c);
      OfClassCons(q[0], Insert(q[1..], r), c);
      assert [q[0]] + q[1..] == q;
    }
  }

  lemma OfClassCons(x: Request, q: seq<Request>, c: nat)
    ensures OfClass([x] + q, c) == (if Class(x) == c then [x] else []) + OfClass(q, c)
  {
    assert ([x] + q)[1..] == q;
  }

  lemma {:induction false} NoneOfClass(q: seq<Request>, c: nat)
    requires forall x :: x in q ==> Class(x) != c
    ensures OfClass(q, c) == []
  {
    if q != [] {
      NoneOfClass(q[1..], c);
    }
  }

  lemma {:induction false} OfClassConcat(q: seq<Request>, q': seq<Request>, c: nat)
    ensures OfClass(q + q', c) == OfClass(q, c) + OfClass(q', c)
  {
    if q == [] {
      assert q + q' == q';
    } else {
      OfClassConcat(q[1..], q', c);
      assert q + q' == [q[0]] + (q[1..] + q');
      OfClassCons(q[0], q[1..] + q', c);
    }
  }

  // ---- the reference: a bag of arrivals in arrival order ----

  /** `q` holds exactly the items of `arrivals`, in service order, and each class in arrival order. */
  ghost predicate Represents(q: seq<Request>, arrivals: seq<Request>) {
    InServiceOrder(q) && forall c: nat :: OfClass(q, c) == OfClass(arrivals, c)
  }

  lemma OfClassOne(r: Request, c: nat)
    ensures OfClass([r], c) == if Class(r) == c then [r] else []
  {
    assert [r][1..] == [];
    assert OfClass([], c) == [];
  }

  lemma PushRefines(q: seq<Request>, arrivals: seq<Request>, r: Request)
    requires Represents(q, arrivals)
    ensures Represents(Insert(q, r), arrivals + [r])
  {
    SortedIsInServiceOrder(q);
    InsertSorted(q, r);
    SortedIsInServiceOrder(Insert(q, r));
    forall c: nat ensures OfClass(Insert(q, r), c) == OfClass(arrivals + [r], c) {
      InsertIsFifoPerClass(q, r, c);
      OfClassConcat(arrivals, [r], c);
      OfClassOne(r, c);
      hide OfClass, Insert, Class, InServiceOrder;
      assert OfClass(q, c) == OfClass(arrivals, c);
    }
  }

  /** A pop returns the oldest of the arrivals that no other comes before, and removes just it: a leaf
    * if there is one, else an internal request of the lowest layer, else an EVM step. */
  lemma PopRefines(q: seq<Request>, arrivals: seq<Request>) returns (i: nat)
    requires Represents(q, arrivals) && q != []
    ensures i < |arrivals| && arrivals[i] == q[0]
    ensures forall x :: x in arrivals ==> NoLaterThan(q[0], x)
    ensures forall j :: 0 <= j < i ==> !NoLaterThan(arrivals[j], q[0])
    ensures Represents(q[1..], arrivals[..i] + arrivals[i + 1..])
  {
    i := PopOldest(q, arrivals);
    forall x | x in arrivals ensures NoLaterThan(q[0], x) {
      ClassIsServiceOrder(q[0], x);
    }
    forall j | 0 <= j < i ensures !NoLaterThan(arrivals[j], q[0]) {
      ClassIsServiceOrder(arrivals[j], q[0]);
    }
  }

  lemma PopOldest(q: seq<Request>, arrivals: seq<Request>) returns (i: nat)
    requires Represents(q, arrivals) && q != []
    ensures i < |arrivals| && arrivals[i] == q[0]
    ensures forall x :: x in arrivals ==> Class(q[0]) <= Class(x)
    ensures forall j :: 0 <= j < i ==> Class(arrivals[j]) != Class(q[0])
    ensures Represents(q[1..], arrivals[..i] + arrivals[i + 1..])
  {
    SortedIsInServiceOrder(q);
    var c0 := Class(q[0]);
    assert OfClass(q, c0)[0] == q[0];
    i := FirstOfClass(arrivals, c0);
    forall x | x in arrivals ensures c0 <= Class(x) {
      InOwnClass(arrivals, x);
      if Class(x) < c0 {
        NoneOfClass(q, Class(x));
      }
    }
    forall c: nat ensures OfClass(q[1..], c) == OfClass(arrivals[..i] + arrivals[i + 1..], c) {
      RemoveFirstOfClass(arrivals, i, c);
      RemoveFirstOfClass(q, 0, c);
      assert q[..0] + q[1..] == q[1..];
      var mark := if c == c0 then [q[0]] else [];
      assert (mark + OfClass(q[1..], c))[|mark|..] == OfClass(q[1..], c);
    }
  }

  lemma {:induction false} RemoveFirstOfClass(xs: seq<Request>, i: nat, c: nat)
    requires i < |xs|
    requires forall j :: 0 <= j < i ==> Class(xs[j]) != Class(xs[i])
    ensures OfClass(xs, c) == (if Class(xs[i]) == c then [xs[i]] else []) + OfClass(xs[..i] + xs[i + 1..], c)
  {
    if i == 0 {
      assert xs[..0] + xs[1..] == xs[1..];
    } else {
      RemoveFirstOfClass(xs[1..], i - 1, c);
      var rest := xs[1..][..i - 1] + xs[1..][i..];
      assert xs[..i] + xs[i + 1..] == [xs[0]] + rest;
      OfClassCons(xs[0], rest, c);
    }
  }

  lemma {:induction false} FirstOfClass(q: seq<Request>, c: nat) returns (i: nat)
    requires OfClass(q, c) != []
    ensures i < |q| && q[i] == OfClass(q, c)[0] && Class(q[i]) == c
    ensures forall j :: 0 <= j < i ==> Class(q[j]) != c
  {
    if Class(q[0]) == c {
      i := 0;
    } else {
      i := FirstOfClass(q[1..], c);
      i := i + 1;
    }
  }

  lemma {:induction false} InOwnClass(q: seq<Request>, x: Request)
    requires x in q
    ensures x in OfClass(q, Class(x))
  {
    if x != q[0] {
      InOwnClass(q[1..], x);
    }
  }

  // ---- the queue itself ----

  function Flatten(qs: seq<seq<Request>>): seq<Request> {
    if qs == [] then [] else qs[0] + Flatten(qs[1..])
  }

  lemma {:induction false} FlattenSplit(qs: seq<seq<Request>>, i: nat)
    requires i < |qs|
    ensures Flatten(qs) == Flatten(qs[..i]) + qs[i] + Flatten(qs[i + 1..])
  {
    if i > 0 {
      FlattenSplit(qs[1..], i - 1);
      assert qs[..i][1..] == qs[1..][..i - 1];
      assert qs[1..][i..] == qs[i + 1..];
    } else {
      assert qs[..0] == [];
    }
  }

  lemma {:induction false} InFlatten(qs: seq<seq<Request>>, x: Request) returns (i: nat)
    requires x in Flatten(qs)
    ensures i < |qs| && x in qs[i]
  {
    if x in qs[0] {
      i := 0;
    } else {
      i := InFlatten(qs[1..], x);
      i := i + 1;
    }
  }

  lemma {:induction false} InsertBetween(front: seq<Request>, back: seq<Request>, r: Request)
    requires forall x :: x in front ==> Class(x) <= Class(r)
    requires forall x :: x in back ==> Class(r) < Class(x)
    ensures Insert(front + back, r) == front + [r] + back
  {
    if front == [] {
      assert front + back == back;
    } else {
      InsertBetween(front[1..], back, r);
      assert (front + back)[1..] == front[1..] + back;
      assert Insert(front + back, r) == [front[0]] + Insert(front[1..] + back, r);
      hide Insert, Class;
      assert [front[0]] + (front[1..] + [r] + back) == front + [r] + back;
    }
  }

  lemma {:induction false} FlattenEmpty(qs: seq<seq<Request>>)
    requires forall i :: 0 <= i < |qs| ==> qs[i] == []
    ensures Flatten(qs) == []
  {
    if qs != [] {
      FlattenEmpty(qs[1..]);
    }
  }

  ghost predicate ByClass(leaf: seq<Request>, layers: seq<seq<Request>>, other: seq<Request>) {
    && |layers| == MAX_LAYERS
    && (forall x :: x in leaf ==> Class(x) == 0)
    && (forall i, x :: 0 <= i < MAX_LAYERS && x in layers[i] ==> Class(x) == 1 + i)
    && (forall x :: x in other ==> Class(x) == 1 + MAX_LAYERS)
  }

  lemma LayerClasses(layers: seq<seq<Request>>, base: nat)
    requires forall i, x :: 0 <= i < |layers| && x in layers[i] ==> Class(x) == 1 + base + i
    ensures forall x :: x in Flatten(layers) ==> base < Class(x) <= base + |layers|
  {
    forall x | x in Flatten(layers) ensures base < Class(x) <= base + |layers| {
      var i := InFlatten(layers, x);
    }
  }

  lemma PushLeaf(leaf: seq<Request>, layers: seq<seq<Request>>, other: seq<Request>, r: Request)
    requires ByClass(leaf, layers, other) && Class(r) == 0
    ensures (leaf + [r]) + Flatten(layers) + other == Insert(leaf + Flatten(layers) + other, r)
  {
    LayerClasses(layers, 0);
    InsertBetween(leaf, Flatten(layers) + other, r);
    assert leaf + Flatten(layers) + other == leaf + (Flatten(layers) + other);
  }

  lemma FlattenReplace(qs: seq<seq<Request>>, i: nat, x: seq<Request>)
    requires i < |qs|
    ensures Flatten(qs[i := x]) == Flatten(qs[..i]) + x + Flatten(qs[i + 1..])
  {
    FlattenSplit(qs[i := x], i);
    assert qs[i := x][..i] == qs[..i] && qs[i := x][i + 1..] == qs[i + 1..];
  }

  lemma Regroup(a: seq<Request>, b: seq<Request>, d: seq<Request>, e: seq<Request>, f: seq<Request>, r: Request)
    ensures a + (b + d + e) + f == (a + b + d) + (e + f)
    ensures a + (b + (d + [r]) + e) + f == (a + b + d) + [r] + (e + f)
  {
  }

  lemma PushLayer(leaf: seq<Request>, layers: seq<seq<Request>>, other: seq<Request>, r: Request, i: nat)
    requires ByClass(leaf, layers, other) && i < MAX_LAYERS && Class(r) == 1 + i
    ensures leaf + Flatten(layers[i := layers[i] + [r]]) + other == Insert(leaf + Flatten(layers) + other, r)
  {
    var front, back := leaf + Flatten(layers[..i]) + layers[i], Flatten(layers[i + 1..]) + other;
    FlattenSplit(layers, i);
    FlattenReplace(layers, i, layers[i] + [r]);
    Regroup(leaf, Flatten(layers[..i]), layers[i], Flatten(layers[i + 1..]), other, r);
    LayerClasses(layers[..i], 0);
    LayerClasses(layers[i + 1..], i + 1);
    hide Flatten, Insert;
    InsertBetween(front, back, r);
  }

  lemma PopLayer(layers: seq<seq<Request>>, i: nat)
    requires i < |layers| && layers[i] != [] && forall j :: 0 <= j < i ==> layers[j] == []
    ensures Flatten(layers) == [layers[i][0]] + Flatten(layers[i := layers[i][1..]])
  {
    FlattenSplit(layers, i);
    FlattenReplace(layers, i, layers[i][1..]);
    FlattenEmpty(layers[..i]);
  }

  lemma PushOther(leaf: seq<Request>, layers: seq<seq<Request>>, other: seq<Request>, r: Request)
    requires ByClass(leaf, layers, other) && Class(r) == 1 + MAX_LAYERS
    ensures leaf + Flatten(layers) + (other + [r]) == Insert(leaf + Flatten(layers) + other, r)
  {
    LayerClasses(layers, 0);
    var all := leaf + Flatten(layers) + other;
    InsertBetween(all, [], r);
    assert all + [] == all;
  }

  // ---- one push and one pop, on the buffers ----

  ghost function Held(leaf: seq<Request>, layers: seq<seq<Request>>, other: seq<Request>): seq<Request> {
    leaf + Flatten(layers) + other
  }

  /** Taking `r` from the front. */
  ghost predicate Takes(q: seq<Request>, r: Request, q': seq<Request>) {
    q == [r] + q'
  }

  lemma TakeLeaf(leaf: seq<Request>, layers: seq<seq<Request>>, other: seq<Request>)
    requires ByClass(leaf, layers, other) && leaf != []
    ensures ByClass(leaf[1..], layers, other) && Takes(Held(leaf, layers, other), leaf[0], Held(leaf[1..], layers, other))
  {
    hide Class, Flatten;
    assert leaf == [leaf[0]] + leaf[1..];
  }

  lemma TakeLayer(layers: seq<seq<Request>>, other: seq<Request>, i: nat)
    requires ByClass([], layers, other) && i < |layers| && layers[i] != [] && forall j :: 0 <= j < i ==> layers[j] == []
    ensures var rest := layers[i := layers[i][1..]];
            ByClass([], rest, other) && Takes(Held([], layers, other), layers[i][0], Held([], rest, other))
  {
    hide Class, Flatten;
    PopLayer(layers, i);
    var rest := layers[i := layers[i][1..]];
    assert Flatten(layers) == [layers[i][0]] + Flatten(rest);
    forall k, x | 0 <= k < MAX_LAYERS && x in rest[k] ensures Class(x) == 1 + k {
      assert x in layers[k];
    }
  }

  lemma TakeOther(layers: seq<seq<Request>>, other: seq<Request>)
    requires ByClass([], layers, other) && other != [] && forall j :: 0 <= j < |layers| ==> layers[j] == []
    ensures ByClass([], layers, other[1..]) && Takes(Held([], layers, other), other[0], Held([], layers, other[1..]))
  {
    FlattenEmpty(layers);
    hide Class, Flatten;
    assert other == [other[0]] + other[1..];
  }

  lemma NothingHeld(layers: seq<seq<Request>>)
    requires forall j :: 0 <= j < |layers| ==> layers[j] == []
    ensures Held([], layers, []) == []
  {
    FlattenEmpty(layers);
  }

  lemma HeadComesFirst(q: seq<Request>)
    requires InServiceOrder(q)
    ensures q != [] ==> forall x :: x in q ==> NoLaterThan(q[0], x)
  {
    hide NoLaterThan;
    if q != [] {
      SameRequest(q[0]);
    }
  }

  lemma SameRequest(r: Request)
    ensures NoLaterThan(r, r)
  {
  }

  class PriorityWorkQueue {
    var leafQueue: seq<Request>
    var layerQueues: seq<seq<Request>>
    var otherQueue: seq<Request>

    ghost predicate Valid()
      reads this
    {
      ByClass(leafQueue, layerQueues, otherQueue)
    }

    ghost function Contents(): seq<Request>
      reads this
    {
      Held(leafQueue, layerQueues, otherQueue)
    }

    constructor ()
      ensures Valid() && Contents() == []
    {
      leafQueue := [];
      layerQueues := seq(MAX_LAYERS, i => []);
      otherQueue := [];
      new;
      FlattenEmpty(layerQueues);
    }

    lemma ContentsSorted()
      requires Valid()
      ensures Sorted(Contents()) && InServiceOrder(Contents())
    {
      SortedIsInServiceOrder(Contents());
      FlattenSorted(layerQueues, 0);
      LayerClasses(layerQueues, 0);
    }

    method Push(r: Request)
      requires Valid()
      modifies this
      ensures Valid() && InServiceOrder(Contents())
      ensures Contents() == Insert(old(Contents()), r)
    {
      hide Flatten, Insert, InServiceOrder, Sorted;
      match r {
        case LeafRequest(_, _, _) =>
          PushLeaf(leafQueue, layerQueues, otherQueue, r);
          leafQueue := leafQueue + [r];
        case InternalRequest(_, layer, _, _, _, _, _) =>
          var i := if layer < |layerQueues| then layer else |layerQueues| - 1;
          PushLayer(leafQueue, layerQueues, otherQueue, r, i);
          layerQueues := layerQueues[i := layerQueues[i] + [r]];
        case EvmRequest(_, _, _) =>
          PushOther(leafQueue, layerQueues, otherQueue, r);
          otherQueue := otherQueue + [r];
      }
      ContentsSorted();
    }

    method Pop() returns (r: Option<Request>)
      requires Valid()
      modifies this
      ensures Valid()
      ensures r.None? <==> old(Contents()) == []
      ensures r.None? ==> Contents() == []
      ensures r.Some? ==> r.value == old(Contents())[0] && Contents() == old(Contents())[1..]
      ensures r.Some? ==> forall x :: x in old(Contents()) ==> NoLaterThan(r.value, x)
    {
      hide ByClass, NoLaterThan, InServiceOrder, Sorted, Held, Flatten;
      ContentsSorted();
      HeadComesFirst(Contents());
      if leafQueue != [] {
        TakeLeaf(leafQueue, layerQueues, otherQueue);
        r := Some(leafQueue[0]);
        leafQueue := leafQueue[1..];
        return;
      }
      for i := 0 to |layerQueues|
        invariant Valid() && leafQueue == [] && layerQueues == old(layerQueues) && otherQueue == old(otherQueue)
        invariant forall j :: 0 <= j < i ==> layerQueues[j] == []
      {
        if layerQueues[i] != [] {
          TakeLayer(layerQueues, otherQueue, i);
          r := Some(layerQueues[i][0]);
          layerQueues := layerQueues[i := layerQueues[i][1..]];
          return;
        }
      }
      if otherQueue != [] {
        TakeOther(layerQueues, otherQueue);
        r := Some(otherQueue[0]);
        otherQueue := otherQueue[1..];
      } else {
        NothingHeld(layerQueues);
        r := None;
      }
    }

    /** A retried item does not jump its class: requeueing is a fresh push. */
    method Requeue(r: Request)
      requires Valid()
      modifies this
      ensures Valid() && InServiceOrder(Contents())
      ensures Contents() == Insert(old(Contents()), r)
    {
      Push(r);
    }

    method IsEmpty() returns (empty: bool)
      requires Valid()
      ensures empty <==> Contents() == []
    {
      if leafQueue != [] {
        return false;
      }
      for i := 0 to |layerQueues|
        invariant forall j :: 0 <= j < i ==> layerQueues[j] == []
      {
        if layerQueues[i] != [] {
          FlattenSplit(layerQueues, i);
          return false;
        }
      }
      FlattenEmpty(layerQueues);
      empty := otherQueue == [];
    }
  }

  lemma {:induction false} FlattenSorted(qs: seq<seq<Request>>, base: nat)
    requires forall i, x :: 0 <= i < |qs| && x in qs[i] ==> Class(x) == 1 + base + i
    ensures Sorted(Flatten(qs))
  {
    if qs != [] {
      FlattenSorted(qs[1..], base + 1);
      LayerClasses(qs[1..], base + 1);
    }
  }
}
