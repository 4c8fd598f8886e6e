/** Authentication paths in the memory Merkle tree (`deferral_merkle.rs`). Nodes are numbered
  * as in a heap: the root is 1, the children of `n` are `2n` and `2n + 1`, and the leaves of a
  * tree of height `h` are `2^h .. 2^(h+1) - 1`. The two-to-one hash is abstract. */
module DeferralMerkle {
  import opened Arithmetic
  import opened Protocol

  datatype Tree<!D> = Tree(height: nat, leaves: seq<D>, compress: (D, D) -> D) {

    ghost predicate Valid() {
      |leaves| == Pow(2, height)
    }

    function GetNode(n: nat): D
      requires Valid() && 1 <= n < 2 * Pow(2, height)
      decreases 2 * Pow(2, height) - n
    {
      if n >= Pow(2, height) then leaves[n - Pow(2, height)]
      else compress(GetNode(2 * n), GetNode(2 * n + 1))
    }
  }

  /** `n ^ 1`. */
  function Sibling(n: nat): nat {
    if n % 2 == 0 then n + 1 else n - 1
  }

  /** `n >> k`. */
  function Shr(n: nat, k: nat): nat {
    if k == 0 then n else Shr(n / 2, k - 1)
  }

  /** The node reached from a digest claimed for node `n` by hashing in the siblings of `path`. */
  function Fold<D>(compress: (D, D) -> D, path: seq<D>, n: nat, digest: D): D {
    if path == [] then digest
    else Fold(compress, path[1..], n / 2, if n % 2 == 0 then compress(digest, path[0]) else compress(path[0], digest))
  }

  /** The siblings met on the way from node `n` to the root. */
  function AuthPath<D>(t: Tree<D>, n: nat): seq<D>
    requires t.Valid() && 1 <= n < 2 * Pow(2, t.height)
    decreases n
  {
    if n == 1 then [] else [t.GetNode(Sibling(n))] + AuthPath(t, n / 2)
  }

  /** `extract_deferral_auth_path`, for the leaf that `labelIdx` points at. */
  method ExtractDeferralAuthPath<D>(t: Tree<D>, labelIdx: nat) returns (proof: seq<D>)
    requires t.Valid() && labelIdx < Pow(2, t.height) && (Pow(2, t.height) + labelIdx) % 2 == 0
    ensures proof == AuthPath(t, Pow(2, t.height) + labelIdx + 1)
    ensures |proof| == t.height
    ensures Fold(t.compress, proof, Pow(2, t.height) + labelIdx + 1, t.GetNode(Pow(2, t.height) + labelIdx + 1)) == t.GetNode(1)
  {
    ghost var h := t.height;
    LeafNotLast(h, labelIdx);
    var leafIdx := Pow(2, t.height) + labelIdx;
    PathLength(t, leafIdx + 1, h);
    PathAuthenticates(t, leafIdx + 1);
    var nodeIdx := leafIdx + 1;
    proof := [];
    while nodeIdx > 1
      invariant 1 <= nodeIdx < 2 * Pow(2, h)
      invariant proof + AuthPath(t, nodeIdx) == AuthPath(t, leafIdx + 1)
    {
      var siblingIdx := Sibling(nodeIdx);
      proof := proof + [t.GetNode(siblingIdx)];
      nodeIdx := nodeIdx / 2;
    }
  }

  lemma LeafNotLast(h: nat, labelIdx: nat)
    requires labelIdx < Pow(2, h) && (Pow(2, h) + labelIdx) % 2 == 0
    ensures Pow(2, h) + labelIdx + 1 < 2 * Pow(2, h)
  {
    if h > 0 {
      assert Pow(2, h) == 2 * Pow(2, h - 1);
      hide Pow;
      EvenBelow(Pow(2, h - 1), labelIdx);
    }
  }

  lemma EvenBelow(q: nat, x: nat)
    requires x < 2 * q && (2 * q + x) % 2 == 0
    ensures x + 1 < 2 * q
  {
  }

  lemma {:induction false} PathLength<D>(t: Tree<D>, n: nat, k: nat)
    requires t.Valid() && k <= t.height && Pow(2, k) <= n < 2 * Pow(2, k) && 1 <= n < 2 * Pow(2, t.height)
    ensures |AuthPath(t, n)| == k
    decreases k
  {
    if k > 0 {
      PathLength(t, n / 2, k - 1);
    }
  }

  /** Folding a node's own digest along its path gives the root. */
  lemma {:induction false} PathAuthenticates<D>(t: Tree<D>, n: nat)
    requires t.Valid() && 1 <= n < 2 * Pow(2, t.height)
    ensures Fold(t.compress, AuthPath(t, n), n, t.GetNode(n)) == t.GetNode(1)
    decreases n
  {
    if n > 1 {
      PathAuthenticates(t, n / 2);
      assert AuthPath(t, n)[1..] == AuthPath(t, n / 2);
      InnerNode(t, n / 2);
    }
  }

  lemma InnerNode<D>(t: Tree<D>, n: nat)
    requires t.Valid() && 1 <= n && 2 * n + 1 < 2 * Pow(2, t.height)
    ensures t.GetNode(n) == t.compress(t.GetNode(2 * n), t.GetNode(2 * n + 1))
  {
  }

  /** If the hash has no collisions, a path of given length and position binds both the digest
    * and the path: nothing else folds to the same root. */
  lemma {:induction false} FoldBinds<D>(compress: (D, D) -> D, path: seq<D>, path': seq<D>, n: nat, digest: D, digest': D)
    requires forall a, b, c, d :: compress(a, b) == compress(c, d) ==> a == c && b == d
    requires |path| == |path'| && Fold(compress, path, n, digest) == Fold(compress, path', n, digest')
    ensures digest == digest' && path == path'
    decreases |path|
  {
    if path != [] {
      var up := if n % 2 == 0 then compress(digest, path[0]) else compress(path[0], digest);
      var up' := if n % 2 == 0 then compress(digest', path'[0]) else compress(path'[0], digest');
      FoldBinds(compress, path[1..], path'[1..], n / 2, up, up');
      assert path == [path[0]] + path[1..] && path' == [path'[0]] + path'[1..];
    }
  }

  // ---- finalizing for a depth ----

  function Zeros<D>(zero: D, k: nat): seq<D> {
    seq(k, i => zero)
  }

  /** `finalize_deferral_path`: none where the depth exceeds the path, which panics. */
  method FinalizeDeferralPath<D>(path: seq<D>, depth: nat, zero: D) returns (out: Option<seq<D>>)
    ensures out.None? <==> depth > |path|
    ensures out.Some? ==> out.value == Zeros(zero, depth) + path[depth..]
  {
    if depth > |path| {
      return None;
    }
    var proof := [];
    for i := 0 to depth
      invariant proof == Zeros(zero, i)
    {
      proof := proof + [zero];
    }
    out := Some(proof + path[depth..]);
  }

  lemma {:induction false} PathSuffix<D>(t: Tree<D>, n: nat, d: nat)
    requires t.Valid() && 1 <= n < 2 * Pow(2, t.height) && d <= |AuthPath(t, n)|
    ensures 1 <= Shr(n, d) < 2 * Pow(2, t.height)
    ensures AuthPath(t, n)[d..] == AuthPath(t, Shr(n, d))
    decreases d
  {
    if d > 0 {
      PathSuffix(t, n / 2, d - 1);
      assert AuthPath(t, n)[d..] == AuthPath(t, n / 2)[d - 1..];
    }
  }

  lemma ShrOfNext(leafIdx: nat, d: nat)
    requires leafIdx % 2 == 0 && d >= 1
    ensures Shr(leafIdx + 1, d) == Shr(leafIdx, d)
  {
    assert (leafIdx + 1) / 2 == leafIdx / 2;
  }

  /** For every depth `d >= 1` the finalized path keeps the length, is zero below `d`, and from
    * `d` on authenticates node `leaf_idx >> d`. */
  lemma FinalizedAuthenticates<D>(t: Tree<D>, labelIdx: nat, d: nat, zero: D)
    requires t.Valid() && labelIdx < Pow(2, t.height) && (Pow(2, t.height) + labelIdx) % 2 == 0 && 1 <= d <= t.height
    ensures Pow(2, t.height) + labelIdx + 1 < 2 * Pow(2, t.height)
    ensures var leafIdx := Pow(2, t.height) + labelIdx;
            var path := AuthPath(t, leafIdx + 1);
            && d <= |path|
            && var out := Zeros(zero, d) + path[d..];
               && |out| == t.height && (forall i :: 0 <= i < d ==> out[i] == zero)
               && 1 <= Shr(leafIdx, d) < 2 * Pow(2, t.height)
               && Fold(t.compress, out[d..], Shr(leafIdx, d), t.GetNode(Shr(leafIdx, d))) == t.GetNode(1)
  {
    var leafIdx := Pow(2, t.height) + labelIdx;
    LeafNotLast(t.height, labelIdx);
    PathLength(t, leafIdx + 1, t.height);
    var path := AuthPath(t, leafIdx + 1);
    PathSuffix(t, leafIdx + 1, d);
    ShrOfNext(leafIdx, d);
    PathAuthenticates(t, Shr(leafIdx, d));
    assert (Zeros(zero, d) + path[d..])[d..] == path[d..];
  }

  /** The siblings in closed form: the leaf itself at the bottom, `(leaf_idx >> i) ^ 1` above,
    * whatever the depth. */
  lemma PathEntries<D>(t: Tree<D>, labelIdx: nat, i: nat)
    requires t.Valid() && labelIdx < Pow(2, t.height) && (Pow(2, t.height) + labelIdx) % 2 == 0 && i < t.height
    ensures Pow(2, t.height) + labelIdx + 1 < 2 * Pow(2, t.height)
    ensures var leafIdx := Pow(2, t.height) + labelIdx;
            var path := AuthPath(t, leafIdx + 1);
            var node := if i == 0 then leafIdx else Sibling(Shr(leafIdx, i));
            |path| == t.height && 1 <= node < 2 * Pow(2, t.height) && path[i] == t.GetNode(node)
  {
    hide Pow, Tree.GetNode, Shr;
    var leafIdx := Pow(2, t.height) + labelIdx;
    LeafNotLast(t.height, labelIdx);
    PathLength(t, leafIdx + 1, t.height);
    PathSuffix(t, leafIdx + 1, i);
    FirstOfPath(t, Shr(leafIdx + 1, i));
    if i == 0 {
      ShrByZero(leafIdx + 1);
    } else {
      ShrOfNext(leafIdx, i);
    }
  }

  lemma ShrByZero(n: nat)
    ensures Shr(n, 0) == n
  {
  }

  lemma FirstOfPath<D>(t: Tree<D>, n: nat)
    requires t.Valid() && 1 <= n < 2 * Pow(2, t.height)
    ensures AuthPath(t, n) != [] ==> 1 <= Sibling(n) < 2 * Pow(2, t.height) && AuthPath(t, n)[0] == t.GetNode(Sibling(n))
  {
  }

  // ---- depth 0: the initial and the final path agree inside the address space ----

  /** Two trees with the same leaves below a node have the same digest there. */
  lemma {:induction false} SubtreesAgree<D>(t: Tree<D>, t': Tree<D>, n: nat, k: nat)
    requires t.Valid() && t'.Valid() && t'.height == t.height && t'.compress == t.compress
    requires n >= 1 && Pow(2, t.height) <= n * Pow(2, k) && (n + 1) * Pow(2, k) <= 2 * Pow(2, t.height)
    requires forall j :: n * Pow(2, k) - Pow(2, t.height) <= j < (n + 1) * Pow(2, k) - Pow(2, t.height) ==> t.leaves[j] == t'.leaves[j]
    ensures n < 2 * Pow(2, t.height) && t.GetNode(n) == t'.GetNode(n)
    decreases k
  {
    PowPositive(2, k);
    AtMostProduct(n + 1, Pow(2, k));
    if k == 0 {
      assert Pow(2, k) == 1;
      hide Pow;
      assert t.leaves[n - Pow(2, t.height)] == t'.leaves[n - Pow(2, t.height)];
    } else {
      hide Pow, Tree.GetNode;
      Halves(n, k);
      SubtreesAgree(t, t', 2 * n, k - 1);
      SubtreesAgree(t, t', 2 * n + 1, k - 1);
      InnerNode(t, n);
      InnerNode(t', n);
    }
  }

  lemma AtMostProduct(n: nat, p: nat)
    requires p >= 1
    ensures n <= n * p
  {
    assert n * p == n + n * (p - 1);
  }

  lemma Halves(n: nat, k: nat)
    requires k > 0
    ensures (2 * n) * Pow(2, k - 1) == n * Pow(2, k)
    ensures (2 * n + 1) * Pow(2, k - 1) == n * Pow(2, k) + Pow(2, k - 1)
    ensures (2 * n + 1 + 1) * Pow(2, k - 1) == (n + 1) * Pow(2, k) == n * Pow(2, k) + 2 * Pow(2, k - 1)
  {
    var q := Pow(2, k - 1);
    assert Pow(2, k) == 2 * q;
    hide Pow;
    MulAssociative(n, 2, q);
    MulAssociative(n + 1, 2, q);
  }

  lemma {:induction false} ShrAligned(q: nat, a: nat, i: nat)
    requires i <= a
    ensures Shr(q * Pow(2, a), i) == q * Pow(2, a - i)
    decreases i
  {
    if i > 0 {
      assert Pow(2, a) == 2 * Pow(2, a - 1);
      HalfOf(q * Pow(2, a - 1));
      MulAssociative(q, 2, Pow(2, a - 1));
      assert q * Pow(2, a) == 2 * (q * Pow(2, a - 1));
      ShrAligned(q, a - 1, i - 1);
    }
  }

  lemma HalfOf(x: nat)
    ensures (2 * x) / 2 == x
  {
  }

  /** The subtree hanging off the path at step `i` lies inside the address space. */
  lemma SiblingInside(q: nat, a: nat, i: nat)
    requires 1 <= i < a
    ensures Sibling(q * Pow(2, a - i)) == q * Pow(2, a - i) + 1
    ensures (q * Pow(2, a - i) + 1) * Pow(2, i) == q * Pow(2, a) + Pow(2, i)
    ensures (q * Pow(2, a - i) + 2) * Pow(2, i) == q * Pow(2, a) + 2 * Pow(2, i)
    ensures 2 * Pow(2, i) <= Pow(2, a)
  {
    assert Pow(2, a - i) == 2 * Pow(2, a - i - 1);
    EvenProduct(q, Pow(2, a - i - 1));
    PowAdd(a - i, i);
    MulAssociative(q, Pow(2, a - i), Pow(2, i));
    PowMonotone(2, i + 1, a);
  }

  lemma EvenProduct(q: nat, x: nat)
    ensures (q * (2 * x)) % 2 == 0
  {
    assert q * (2 * x) == 2 * (q * x);
  }

  lemma {:induction false} PowAdd(x: nat, y: nat)
    ensures Pow(2, x) * Pow(2, y) == Pow(2, x + y)
  {
    if x == 0 {
      assert Pow(2, 0) == 1;
    } else {
      PowAdd(x - 1, y);
      MulAssociative(2, Pow(2, x - 1), Pow(2, y));
      assert Pow(2, x + y) == 2 * Pow(2, x + y - 1);
    }
  }

  ghost predicate SameSpace<D>(initial: Tree<D>, final: Tree<D>, labelIdx: nat, addressHeight: nat) {
    && initial.Valid() && final.Valid() && final.height == initial.height && final.compress == initial.compress
    && labelIdx + Pow(2, addressHeight) <= Pow(2, initial.height)
    && forall k :: labelIdx <= k < labelIdx + Pow(2, addressHeight) ==> initial.leaves[k] == final.leaves[k]
  }

  lemma InsideSiblingsAgree<D>(initial: Tree<D>, final: Tree<D>, labelIdx: nat, q: nat, addressHeight: nat, i: nat)
    requires SameSpace(initial, final, labelIdx, addressHeight)
    requires Pow(2, initial.height) + labelIdx == q * Pow(2, addressHeight) && 1 <= i < addressHeight
    ensures var node := Sibling(Shr(Pow(2, initial.height) + labelIdx, i));
            1 <= node < 2 * Pow(2, initial.height) && initial.GetNode(node) == final.GetNode(node)
  {
    ShrAligned(q, addressHeight, i);
    SiblingInside(q, addressHeight, i);
    PowPositive(2, i);
    hide Pow, Shr, Sibling, Tree.GetNode;
    var node := q * Pow(2, addressHeight - i) + 1;
    assert node * Pow(2, i) == Pow(2, initial.height) + labelIdx + Pow(2, i);
    assert (node + 1) * Pow(2, i) == Pow(2, initial.height) + labelIdx + 2 * Pow(2, i);
    SubtreesAgree(initial, final, node, i);
  }

  /** Depth-0 agreement: if the initial and final trees have the same leaves throughout the
    * aligned address space (`2^addressHeight` leaves from the labelled leaf), then the two paths
    * agree on their first `addressHeight` entries. */
  lemma Depth0PathsAgree<D>(initial: Tree<D>, final: Tree<D>, labelIdx: nat, q: nat, addressHeight: nat, i: nat)
    requires SameSpace(initial, final, labelIdx, addressHeight)
    requires labelIdx < Pow(2, initial.height) && (Pow(2, initial.height) + labelIdx) % 2 == 0
    requires Pow(2, initial.height) + labelIdx == q * Pow(2, addressHeight)
    requires i < addressHeight <= initial.height
    ensures Pow(2, initial.height) + labelIdx + 1 < 2 * Pow(2, initial.height)
    ensures var n := Pow(2, initial.height) + labelIdx + 1;
            && |AuthPath(initial, n)| == |AuthPath(final, n)| == initial.height
            && AuthPath(initial, n)[i] == AuthPath(final, n)[i]
  {
    PathEntries(initial, labelIdx, i);
    PathEntries(final, labelIdx, i);
    PowPositive(2, addressHeight);
    hide AuthPath;
    if i == 0 {
      assert initial.leaves[labelIdx] == final.leaves[labelIdx];
    } else {
      hide Pow, Shr, Sibling, Tree.GetNode;
      InsideSiblingsAgree(initial, final, labelIdx, q, addressHeight, i);
    }
  }

  /** `depth0_deferral_merkle_proofs`, from the two trees. */
  method Depth0DeferralMerkleProofs<D>(initial: Tree<D>, final: Tree<D>, labelIdx: nat, zero: D) returns (initialProof: seq<D>, finalProof: seq<D>)
    requires initial.Valid() && final.Valid() && final.height == initial.height
    requires labelIdx < Pow(2, initial.height) && (Pow(2, initial.height) + labelIdx) % 2 == 0
    ensures Pow(2, initial.height) + labelIdx + 1 < 2 * Pow(2, initial.height)
    ensures initialProof == AuthPath(initial, Pow(2, initial.height) + labelIdx + 1)
    ensures finalProof == AuthPath(final, Pow(2, initial.height) + labelIdx + 1)
  {
    LeafNotLast(initial.height, labelIdx);
    var initialPath := ExtractDeferralAuthPath(initial, labelIdx);
    var finalPath := ExtractDeferralAuthPath(final, labelIdx);
    var a := FinalizeDeferralPath(initialPath, 0, zero);
    var b := FinalizeDeferralPath(finalPath, 0, zero);
    initialProof, finalProof := a.value, b.value;
  }
}
