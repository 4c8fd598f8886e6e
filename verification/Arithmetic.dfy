/** Rounded-up division, powers and finite sets, and the facts about them that the tree
  * and the shard arithmetic rest on. */
module Arithmetic {

  /** `div_ceil`. */
  function CeilDiv(n: nat, d: nat): nat
    requires d > 0
  {
    (n + d - 1) / d
  }

  function Pow(b: nat, e: nat): nat
  {
    if e == 0 then 1 else b * Pow(b, e - 1)
  }

  function Min(x: int, y: int): int {
    if x <= y then x else y
  }

  function Max(x: int, y: int): int {
    if x <= y then y else x
  }

  /** Group `p` of size `d` is populated iff it is below the rounded-up quotient. */
  lemma CeilDivBelow(n: nat, d: nat, p: nat)
    requires d > 0
    ensures p < CeilDiv(n, d) <==> p * d < n
  {
    var q := CeilDiv(n, d);
    DivBounds(n + d - 1, d);
    if p < q {
      MulMonotone(p + 1, q, d);
    } else {
      MulMonotone(q, p, d);
    }
  }

  lemma DivBounds(n: nat, d: nat)
    requires d > 0
    ensures (n / d) * d <= n < (n / d) * d + d
  {
    assert n == (n / d) * d + n % d;
  }

  lemma MulMonotone(x: nat, y: nat, d: nat)
    requires x <= y
    ensures x * d <= y * d
  {
    assert y * d == x * d + (y - x) * d;
  }

  lemma DivUnique(n: nat, d: nat, q: nat)
    requires d > 0 && q * d <= n < q * d + d
    ensures n / d == q
  {
    DivBounds(n, d);
    if n / d < q {
      MulMonotone(n / d + 1, q, d);
    } else if q < n / d {
      MulMonotone(q + 1, n / d, d);
    }
  }

  lemma MulAssociative(x: nat, y: nat, z: nat)
    ensures x * y * z == x * (y * z)
  {
  }

  lemma CeilDivComposeBelow(n: nat, d: nat, e: nat, p: nat)
    requires d > 0 && e > 0 && e * d > 0
    ensures p < CeilDiv(CeilDiv(n, d), e) <==> p < CeilDiv(n, e * d)
  {
    CeilDivBelow(CeilDiv(n, d), e, p);
    CeilDivBelow(n, d, p * e);
    CeilDivBelow(n, e * d, p);
    MulAssociative(p, e, d);
  }

  /** Rounding up twice is rounding up once by the product. */
  lemma CeilDivCompose(n: nat, d: nat, e: nat)
    requires d > 0 && e > 0 && e * d > 0
    ensures CeilDiv(CeilDiv(n, d), e) == CeilDiv(n, e * d)
  {
    var x, y := CeilDiv(CeilDiv(n, d), e), CeilDiv(n, e * d);
    CeilDivComposeBelow(n, d, e, if x < y then x else y);
  }

  lemma PowPositive(b: nat, e: nat)
    requires b > 0
    ensures Pow(b, e) > 0
  {
  }

  lemma PowMonotone(b: nat, e: nat, f: nat)
    requires b > 0 && e <= f
    ensures Pow(b, e) <= Pow(b, f)
    decreases f
  {
    if e < f {
      PowMonotone(b, e, f - 1);
      MulMonotone(1, b, Pow(b, f - 1));
    }
  }

  // ---- finite sets ----

  /** The numbers `0 .. n - 1`. */
  ghost function Below(n: nat): (r: set<nat>)
    ensures |r| == n && forall i: nat :: i in r <==> i < n
  {
    if n == 0 then {} else Below(n - 1) + {n - 1}
  }

  lemma SubsetSize<T>(a: set<T>, b: set<T>)
    requires a <= b
    ensures |a| <= |b|
    ensures |a| == |b| <==> a == b
  {
    assert b == a + (b - a);
    if a != b {
      var x :| x in b - a;
    }
  }
}
