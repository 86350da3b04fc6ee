/**
 Normalisation, L2 distance and cosine of doc_rag/store.py over exact reals.  `sqrt` is any
 function that inverts squaring on non-negative reals.
 */
module VectorMath {
  type Vec = seq<real>

  ghost predicate IsSqrt(sqrt: real -> real) {
    forall x: real :: x >= 0.0 ==> sqrt(x) >= 0.0 && sqrt(x) * sqrt(x) == x
  }

  const EPSILON := 0.000000001

  // ── vectors ────────────────────────────────────────────────────

  function Dot(a: Vec, b: Vec): real
    requires |a| == |b|
  {
    if a == [] then 0.0 else Dot(a[..|a| - 1], b[..|b| - 1]) + a[|a| - 1] * b[|b| - 1]
  }

  function Scale(a: Vec, s: real): (r: Vec)
    ensures |r| == |a| && forall i :: 0 <= i < |r| ==> r[i] == a[i] * s
  {
    if a == [] then [] else Scale(a[..|a| - 1], s) + [a[|a| - 1] * s]
  }

  function Minus(a: Vec, b: Vec): (r: Vec)
    requires |a| == |b|
    ensures |r| == |a| && forall i :: 0 <= i < |r| ==> r[i] == a[i] - b[i]
  {
    if a == [] then [] else Minus(a[..|a| - 1], b[..|b| - 1]) + [a[|a| - 1] - b[|b| - 1]]
  }

  /** The square of vec0's L2 distance. */
  function SquaredDistance(a: Vec, b: Vec): real
    requires |a| == |b|
  {
    Dot(Minus(a, b), Minus(a, b))
  }

  function Norm(sqrt: real -> real, a: Vec): real {
    sqrt(Dot(a, a))
  }

  function Normalize(sqrt: real -> real, a: Vec): (r: Vec)
    ensures |r| == |a|
  {
    var norm := Norm(sqrt, a);
    if norm < EPSILON then a else Scale(a, 1.0 / norm)
  }

  function Prefix(a: Vec, n: nat): (r: Vec)
    ensures r <= a && |r| == if |a| <= n then |a| else n
  {
    if |a| <= n then a else a[..n]
  }

  /** The products of zip(a, b), which stops at the shorter vector, over the whole norms. */
  function Cosine(sqrt: real -> real, a: Vec, b: Vec): real {
    if Norm(sqrt, a) < EPSILON || Norm(sqrt, b) < EPSILON then 0.0
    else Dot(Prefix(a, |b|), Prefix(b, |a|)) / Norm(sqrt, a) / Norm(sqrt, b)
  }

  function Square(x: real): real {
    x * x
  }

  /** _l2dist_to_cosine on a distance whose square is known. */
  function DistanceScore(squared: real): real {
    1.0 - squared / 2.0
  }

  lemma {:induction false} DotScale(a: Vec, b: Vec, s: real, t: real)
    requires |a| == |b|
    ensures Dot(Scale(a, s), Scale(b, t)) == s * t * Dot(a, b)
  {
    if a != [] {
      var n := |a| - 1;
      DotScale(a[..n], b[..n], s, t);
      assert Scale(a, s)[..n] == Scale(a[..n], s) && Scale(b, t)[..n] == Scale(b[..n], t);
      var x, y, d := a[n], b[n], Dot(a[..n], b[..n]);
      assert (x * s) * (y * t) == s * t * (x * y);
      assert s * t * (d + x * y) == s * t * d + s * t * (x * y);
    }
  }

  lemma {:induction false} DistanceExpands(a: Vec, b: Vec)
    requires |a| == |b|
    ensures SquaredDistance(a, b) == Dot(a, a) + Dot(b, b) - 2.0 * Dot(a, b)
  {
    if a != [] {
      var n := |a| - 1;
      DistanceExpands(a[..n], b[..n]);
      assert Minus(a, b)[..n] == Minus(a[..n], b[..n]);
      var x, y := a[n], b[n];
      assert (x - y) * (x - y) == x * x + y * y - 2.0 * (x * y);
    }
  }

  lemma {:induction false} DotSelf(a: Vec)
    ensures Dot(a, a) >= 0.0
  {
    if a != [] {
      DotSelf(a[..|a| - 1]);
      var x := a[|a| - 1];
      assert x * x >= 0.0;
    }
  }

  // ── which products and distances these are ─────────────────────

  /** The k-th unit vector. */
  function Unit(n: nat, k: nat): (e: Vec)
    ensures |e| == n && forall i :: 0 <= i < n ==> e[i] == if i == k then 1.0 else 0.0
  {
    seq(n, i => if i == k then 1.0 else 0.0)
  }

  /** The product with a unit vector is that coordinate. */
  lemma {:induction false} DotUnit(b: Vec, k: nat)
    ensures Dot(Unit(|b|, k), b) == if k < |b| then b[k] else 0.0
  {
    if b != [] {
      var n := |b| - 1;
      DotUnit(b[..n], k);
      assert Unit(|b|, k)[..n] == Unit(n, k);
    }
  }

  /** The product is additive; with DotScale, DotUnit and DotCommutes that leaves one product. */
  lemma {:induction false} DotAdds(a: Vec, b: Vec, sum: Vec, c: Vec)
    requires |a| == |b| == |sum| == |c| && forall i :: 0 <= i < |sum| ==> sum[i] == a[i] + b[i]
    ensures Dot(sum, c) == Dot(a, c) + Dot(b, c) && Dot(c, sum) == Dot(c, a) + Dot(c, b)
  {
    if c != [] {
      var n := |c| - 1;
      DotAdds(a[..n], b[..n], sum[..n], c[..n]);
      assert sum[n] * c[n] == a[n] * c[n] + b[n] * c[n];
    }
  }

  lemma {:induction false} DotSelfZeroIff(a: Vec)
    ensures Dot(a, a) == 0.0 <==> forall i :: 0 <= i < |a| ==> a[i] == 0.0
  {
    if a != [] {
      var n := |a| - 1;
      DotSelfZeroIff(a[..n]);
      DotSelf(a[..n]);
      var x := a[n];
      SquareIncreases(0.0, if x < 0.0 then -x else x);
      assert (-x) * (-x) == x * x;
      assert (forall i :: 0 <= i < |a| ==> a[i] == 0.0) <==> (forall i :: 0 <= i < n ==> a[..n][i] == 0.0) && x == 0.0;
    }
  }

  /** Only equal vectors are at distance zero. */
  lemma DistanceZeroIff(a: Vec, b: Vec)
    requires |a| == |b|
    ensures SquaredDistance(a, b) >= 0.0 && (SquaredDistance(a, b) == 0.0 <==> a == b)
  {
    DotSelf(Minus(a, b));
    DotSelfZeroIff(Minus(a, b));
    var d := Minus(a, b);
    assert forall i :: 0 <= i < |a| ==> d[i] == a[i] - b[i];
    if forall i :: 0 <= i < |d| ==> d[i] == 0.0 {
      assert forall i :: 0 <= i < |a| ==> a[i] == b[i] + d[i];
    }
  }

  /** The cosine lies between -1 and 1, and is 1 exactly for vectors of one direction. */
  lemma CosineBounds(sqrt: real -> real, a: Vec, b: Vec)
    requires IsSqrt(sqrt) && |a| == |b| && Norm(sqrt, a) >= EPSILON && Norm(sqrt, b) >= EPSILON
    ensures -1.0 <= Cosine(sqrt, a, b) <= 1.0
    ensures Cosine(sqrt, a, b) == 1.0 <==> Normalize(sqrt, a) == Normalize(sqrt, b)
  {
    hide Dot, Minus, Scale;
    var x, y := Normalize(sqrt, a), Normalize(sqrt, b);
    ScoresAgree(sqrt, a, b);
    DistanceZeroIff(x, y);
    NormalizedIsUnit(sqrt, a);
    NormalizedIsUnit(sqrt, b);
    DistanceExpands(x, y);
    DistanceExpands(x, Scale(y, -1.0));
    DistanceZeroIff(x, Scale(y, -1.0));
    ScaleOne(x);
    DotScale(x, y, 1.0, -1.0);
    DotScale(y, y, -1.0, -1.0);
  }

  lemma ScaleOne(a: Vec)
    ensures Scale(a, 1.0) == a
  {
  }

  lemma NormSquare(sqrt: real -> real, a: Vec)
    requires IsSqrt(sqrt)
    ensures Norm(sqrt, a) >= 0.0 && Norm(sqrt, a) * Norm(sqrt, a) == Dot(a, a) >= 0.0
  {
    DotSelf(a);
  }

  /** A vector that is not negligible is stored with length one. */
  lemma NormalizedIsUnit(sqrt: real -> real, a: Vec)
    requires IsSqrt(sqrt) && Norm(sqrt, a) >= EPSILON
    ensures Dot(Normalize(sqrt, a), Normalize(sqrt, a)) == 1.0
  {
    var n := Norm(sqrt, a);
    NormSquare(sqrt, a);
    DotScale(a, a, 1.0 / n, 1.0 / n);
    var i := 1.0 / n;
    assert i * n == 1.0;
    assert i * i * (n * n) == (i * n) * (i * n);
  }

  lemma DivideTwice(x: real, m: real, n: real)
    requires m > 0.0 && n > 0.0
    ensures (1.0 / m) * (1.0 / n) * x == x / m / n
  {
    var i, j := 1.0 / m, 1.0 / n;
    assert x / m == x * i;
    assert (x * i) / n == (x * i) * j;
    assert i * j * x == (x * i) * j;
  }

  /** The distance of the stored vectors and the cosine of the originals give one score. */
  lemma ScoresAgree(sqrt: real -> real, a: Vec, b: Vec)
    requires IsSqrt(sqrt) && |a| == |b| && Norm(sqrt, a) >= EPSILON && Norm(sqrt, b) >= EPSILON
    ensures DistanceScore(SquaredDistance(Normalize(sqrt, a), Normalize(sqrt, b))) == Cosine(sqrt, a, b)
  {
    hide Dot, Minus, Scale;
    var m, n := Norm(sqrt, a), Norm(sqrt, b);
    DistanceExpands(Normalize(sqrt, a), Normalize(sqrt, b));
    NormalizedIsUnit(sqrt, a);
    NormalizedIsUnit(sqrt, b);
    DotScale(a, b, 1.0 / m, 1.0 / n);
    DivideTwice(Dot(a, b), m, n);
  }

  /** A small vector beside a vector of length at most one keeps away from opposition. */
  lemma SmallVectorScore(a: Vec, b: Vec)
    requires |a| == |b| && Dot(a, a) <= 0.01 && 0.0 <= Dot(b, b) <= 1.0
    ensures DistanceScore(SquaredDistance(a, b)) > 0.0
  {
    hide Dot, Scale, Minus;
    DistanceExpands(a, b);
    DistanceExpands(Scale(a, -4.0), b);
    DotSelf(Minus(Scale(a, -4.0), b));
    ScaleOne(b);
    DotScale(a, b, -4.0, 1.0);
    DotScale(a, a, -4.0, -4.0);
  }

  /**
   The precise condition: the two scores of a chunk agree if and only if neither vector is
   negligible.  A zero embedding scores 0 in the scan and about one half by distance.
   */
  lemma ScoresAgreeIff(sqrt: real -> real, a: Vec, b: Vec)
    requires IsSqrt(sqrt) && |a| == |b|
    ensures DistanceScore(SquaredDistance(Normalize(sqrt, a), Normalize(sqrt, b))) == Cosine(sqrt, a, b)
            <==> Norm(sqrt, a) >= EPSILON && Norm(sqrt, b) >= EPSILON
  {
    if Norm(sqrt, a) >= EPSILON && Norm(sqrt, b) >= EPSILON {
      ScoresAgree(sqrt, a, b);
    } else {
      var x, y := Normalize(sqrt, a), Normalize(sqrt, b);
      StoredSquare(sqrt, a);
      StoredSquare(sqrt, b);
      if Norm(sqrt, a) < EPSILON {
        SmallVectorScore(x, y);
      } else {
        SmallVectorScore(y, x);
        DistanceExpands(x, y);
        DistanceExpands(y, x);
        DotCommutes(x, y);
      }
    }
  }

  lemma StoredSquare(sqrt: real -> real, a: Vec)
    requires IsSqrt(sqrt)
    ensures var x := Normalize(sqrt, a);
            0.0 <= Dot(x, x) <= 1.0 && (Norm(sqrt, a) < EPSILON ==> Dot(x, x) <= 0.01)
  {
    NormSquare(sqrt, a);
    if Norm(sqrt, a) >= EPSILON {
      NormalizedIsUnit(sqrt, a);
    } else {
      var n := Norm(sqrt, a);
      assert Normalize(sqrt, a) == a && n * n == Dot(a, a);
      assert n * n <= n * 0.1 <= 0.01;
      assert Dot(Normalize(sqrt, a), Normalize(sqrt, a)) <= 0.01;
    }
  }

  lemma {:induction false} DotCommutes(a: Vec, b: Vec)
    requires |a| == |b|
    ensures Dot(a, b) == Dot(b, a)
  {
    if a != [] {
      DotCommutes(a[..|a| - 1], b[..|b| - 1]);
    }
  }

  lemma SquareIncreases(x: real, y: real)
    requires x >= 0.0 && y >= 0.0
    ensures x < y ==> x * x < y * y
  {
    var sum, gap := x + y, y - x;
    assert y * y - x * x == gap * sum;
    if x < y {
      assert gap * sum > 0.0;
    }
  }

  lemma RootUnique(x: real, y: real)
    requires x >= 0.0 && y >= 0.0 && x * x == y * y
    ensures x == y
  {
    SquareIncreases(x, y);
    SquareIncreases(y, x);
  }

  /** A zero embedding against a unit one: one half by distance, nothing by cosine. */
  lemma ZeroVectorScores(sqrt: real -> real)
    requires IsSqrt(sqrt)
    ensures Cosine(sqrt, [0.0], [1.0]) == 0.0
    ensures DistanceScore(SquaredDistance(Normalize(sqrt, [0.0]), Normalize(sqrt, [1.0]))) == 0.5
  {
    var zero, one := [0.0], [1.0];
    assert Dot(zero[..0], zero[..0]) == 0.0 && Dot(one[..0], one[..0]) == 0.0;
    NormSquare(sqrt, zero);
    NormSquare(sqrt, one);
    RootUnique(Norm(sqrt, zero), 0.0);
    RootUnique(Norm(sqrt, one), 1.0);
    assert Normalize(sqrt, zero) == zero;
    ScaleOne(one);
    assert Minus(zero, one) == [-1.0];
    assert Dot([-1.0][..0], [-1.0][..0]) == 0.0;
  }
}
