/**
 `cosine_similarity` of `src/vector_cache.rs`, in exact real arithmetic. The square root is a
 parameter; `IsSqrt` is what the lemmas need of it.
 */
module Cosine {
  import opened Reals

  ghost predicate IsSqrt(sqrt: real -> real)
  {
    forall x: real :: x >= 0.0 ==> sqrt(x) >= 0.0 && Times(sqrt(x), sqrt(x)) == x
  }

  /** The inner product, in the order the loop adds it up. */
  function Dot(a: seq<real>, b: seq<real>): real
    requires |a| == |b|
  {
    if a == [] then 0.0
    else
      var n := |a| - 1;
      Dot(a[..n], b[..n]) + Times(a[n], b[n])
  }

  /** The score of two vectors; 0 for unequal lengths, empty vectors and zero magnitudes. */
  function Score(sqrt: real -> real, a: seq<real>, b: seq<real>): real
  {
    if |a| != |b| || a == [] then 0.0
    else
      var denom := Times(sqrt(Dot(a, a)), sqrt(Dot(b, b)));
      if denom == 0.0 then 0.0 else Dot(a, b) / denom
  }

  /** The Cauchy-Schwarz bound between the loop's three sums. */
  predicate Bounded(dot: real, magA: real, magB: real)
  {
    Times(dot, dot) <= Times(magA, magB)
  }

  /** The loop; at every prefix the three sums obey the Cauchy-Schwarz bound. */
  method CosineSimilarity(sqrt: real -> real, a: seq<real>, b: seq<real>) returns (score: real)
    ensures score == Score(sqrt, a, b)
    ensures IsSqrt(sqrt) ==> -1.0 <= score <= 1.0
  {
    if |a| != |b| || |a| == 0 {
      return 0.0;
    }
    var dot, magA, magB := 0.0, 0.0, 0.0;
    for i := 0 to |a|
      invariant dot == Dot(a[..i], b[..i])
      invariant magA == Dot(a[..i], a[..i]) && magB == Dot(b[..i], b[..i])
      invariant Bounded(dot, magA, magB)
    {
      var x, y := a[i], b[i];
      dot := dot + Times(x, y);
      magA := magA + Times(x, x);
      magB := magB + Times(y, y);
      DotPrefix(a, b, i);
      DotPrefix(a, a, i);
      DotPrefix(b, b, i);
      CauchySchwarz(a[..i + 1], b[..i + 1]);
    }
    assert a[..|a|] == a && b[..|a|] == b;
    var denom := Times(sqrt(magA), sqrt(magB));
    score := if denom == 0.0 then 0.0 else dot / denom;
    if IsSqrt(sqrt) {
      ScoreBounds(sqrt, a, b);
    }
  }

  lemma DotPrefix(a: seq<real>, b: seq<real>, i: nat)
    requires |a| == |b| && i < |a|
    ensures Dot(a[..i + 1], b[..i + 1]) == Dot(a[..i], b[..i]) + Times(a[i], b[i])
  {
    assert a[..i + 1][..i] == a[..i] && b[..i + 1][..i] == b[..i];
  }

  lemma {:induction false} DotSelfNonneg(a: seq<real>)
    ensures Dot(a, a) >= 0.0
  {
    if a == [] {
    } else {
      DotSelfNonneg(a[..|a| - 1]);
      Square(a[|a| - 1]);
    }
  }

  lemma {:induction false} DotSymmetric(a: seq<real>, b: seq<real>)
    requires |a| == |b|
    ensures Dot(a, b) == Dot(b, a)
  {
    if a == [] {
    } else {
      var n := |a| - 1;
      DotSymmetric(a[..n], b[..n]);
      Comm(a[n], b[n]);
    }
  }

  /** The squared distance of `a` from `t * b`, as a polynomial in `t`. */
  function Distance(A: real, D: real, B: real, t: real): real
  {
    A - 2.0 * Times(t, D) + Times(t, Times(t, B))
  }

  lemma DistanceStep(A: real, D: real, B: real, x: real, y: real, t: real)
    ensures Distance(A + Times(x, x), D + Times(x, y), B + Times(y, y), t) ==
            Distance(A, D, B, t) + Times(x - Times(t, y), x - Times(t, y))
  {
    var u := Times(t, y);
    SquareOfDifference(x, u);
    Dist(t, D, Times(x, y));
    Dist(t, B, Times(y, y));
    Dist(t, Times(t, B), Times(t, Times(y, y)));
    assert Times(x, u) == Times(t, Times(x, y)) by {
      Comm(t, y);
      Assoc(x, y, t);
      Comm(Times(x, y), t);
    }
    assert Times(u, u) == Times(t, Times(t, Times(y, y))) by {
      Assoc(t, y, u);
      Comm(y, u);
      Assoc(t, y, y);
    }
  }

  lemma {:induction false} DistanceNonneg(a: seq<real>, b: seq<real>, t: real)
    requires |a| == |b|
    ensures Distance(Dot(a, a), Dot(a, b), Dot(b, b), t) >= 0.0
  {
    if a == [] {
      Sign(t, 0.0);
    } else {
      var n := |a| - 1;
      DistanceNonneg(a[..n], b[..n], t);
      Square(a[n] - Times(t, b[n]));
      DistanceStep(Dot(a[..n], a[..n]), Dot(a[..n], b[..n]), Dot(b[..n], b[..n]), a[n], b[n], t);
    }
  }

  /** A quadratic that is never negative has no positive discriminant. */
  lemma Discriminant(A: real, D: real, B: real, t: real)
    requires B > 0.0 && t == D / B && Distance(A, D, B, t) >= 0.0
    ensures Bounded(D, A, B)
  {
    Divide(D, B);
    var r := A - Times(t, D);
    Sign(r, B);
    Comm(r, B);
    Dist(B, A, Times(t, D));
    Comm(B, A);
    assert Times(B, Times(t, D)) == Times(D, D) by {
      Assoc(B, t, D);
      Comm(B, t);
    }
  }

  lemma FlatDiscriminant(A: real, D: real, t: real)
    requires D != 0.0 && t == (A + 1.0) / 2.0 / D
    ensures Distance(A, D, 0.0, t) == -1.0
  {
    Divide((A + 1.0) / 2.0, D);
    Sign(t, 0.0);
  }

  lemma {:induction false} CauchySchwarz(a: seq<real>, b: seq<real>)
    requires |a| == |b|
    ensures Bounded(Dot(a, b), Dot(a, a), Dot(b, b))
  {
    var A, D, B := Dot(a, a), Dot(a, b), Dot(b, b);
    DotSelfNonneg(b);
    if B > 0.0 {
      DistanceNonneg(a, b, D / B);
      Discriminant(A, D, B, D / B);
    } else {
      Sign(D, D);
      Sign(A, B);
      if D != 0.0 {
        var t := (A + 1.0) / 2.0 / D;
        DistanceNonneg(a, b, t);
        FlatDiscriminant(A, D, t);
      }
    }
  }

  lemma {:induction false} DenomSquared(sqrt: real -> real, a: seq<real>, b: seq<real>)
    requires IsSqrt(sqrt)
    ensures var denom := Times(sqrt(Dot(a, a)), sqrt(Dot(b, b)));
            denom >= 0.0 && Times(denom, denom) == Times(Dot(a, a), Dot(b, b))
  {
    DotSelfNonneg(a);
    DotSelfNonneg(b);
    var p, q := sqrt(Dot(a, a)), sqrt(Dot(b, b));
    Sign(p, q);
    Assoc(p, q, Times(p, q));
    Comm(p, q);
    Assoc(q, q, p);
    Comm(Times(q, q), p);
    Assoc(p, p, Times(q, q));
  }

  /** Scores lie in [-1, 1] and do not depend on the order of the vectors. */
  lemma ScoreBounds(sqrt: real -> real, a: seq<real>, b: seq<real>)
    requires IsSqrt(sqrt)
    ensures -1.0 <= Score(sqrt, a, b) <= 1.0
    ensures Score(sqrt, a, b) == Score(sqrt, b, a)
  {
    if |a| == |b| && a != [] {
      var denom := Times(sqrt(Dot(a, a)), sqrt(Dot(b, b)));
      Comm(sqrt(Dot(a, a)), sqrt(Dot(b, b)));
      DotSymmetric(a, b);
      if denom != 0.0 {
        DenomSquared(sqrt, a, b);
        CauchySchwarz(a, b);
        SquareOrder(Dot(a, b), denom);
        UnitQuotient(Dot(a, b), denom);
      }
    }
  }

  lemma UnitQuotient(x: real, d: real)
    requires d > 0.0 && -d <= x <= d
    ensures -1.0 <= x / d <= 1.0
  {
    var r := x / d;
    Divide(x, d);
    Comm(r, d);
    Dist(d, r, 1.0);
    Dist(d, r, -1.0);
    Sign(d, r - 1.0);
    Sign(d, r - -1.0);
    assert Times(d, 1.0) == d && Times(d, -1.0) == -d;
  }

  predicate Nonzero(a: seq<real>) { exists i :: 0 <= i < |a| && a[i] != 0.0 }

  lemma {:induction false} NonzeroMagnitude(a: seq<real>)
    ensures Nonzero(a) <==> Dot(a, a) > 0.0
  {
    if a == [] {
    } else {
      var n := |a| - 1;
      NonzeroMagnitude(a[..n]);
      DotSelfNonneg(a[..n]);
      Square(a[n]);
      Sign(a[n], a[n]);
      assert Nonzero(a) <==> Nonzero(a[..n]) || a[n] != 0.0 by {
        if Nonzero(a) && a[n] == 0.0 {
          var i :| 0 <= i < |a| && a[i] != 0.0;
          assert a[..n][i] != 0.0;
        }
        if Nonzero(a[..n]) {
          var i :| 0 <= i < n && a[..n][i] != 0.0;
          assert a[i] != 0.0;
        }
      }
    }
  }

  /** A vector scores 1 with itself if it is not zero, and 0 with everything if it is. */
  lemma SelfScore(sqrt: real -> real, a: seq<real>, b: seq<real>)
    requires IsSqrt(sqrt)
    ensures Nonzero(a) ==> Score(sqrt, a, a) == 1.0
    ensures !Nonzero(a) ==> Score(sqrt, a, b) == 0.0
  {
    NonzeroMagnitude(a);
    DotSelfNonneg(a);
    var p := sqrt(Dot(a, a));
    if Nonzero(a) {
      assert Times(1.0, Dot(a, a)) == Dot(a, a);
      QuotientIs(Dot(a, a), Times(p, p), 1.0);
    } else {
      Square(p);
      if |a| == |b| {
        Sign(p, sqrt(Dot(b, b)));
      }
    }
  }

  // ---------------------------------------------------- the score as an angle

  /** The squared Euclidean distance of two vectors. */
  function SquaredDistance(a: seq<real>, b: seq<real>): real
    requires |a| == |b|
  {
    if a == [] then 0.0
    else
      var n := |a| - 1;
      SquaredDistance(a[..n], b[..n]) + Times(a[n] - b[n], a[n] - b[n])
  }

  function SquaredLength(a: seq<real>): real
  {
    if a == [] then 0.0
    else
      var n := |a| - 1;
      SquaredLength(a[..n]) + Times(a[n], a[n])
  }

  lemma {:induction false} LengthIsDot(a: seq<real>)
    ensures SquaredLength(a) == Dot(a, a)
  {
    if a == [] {
    } else {
      LengthIsDot(a[..|a| - 1]);
    }
  }

  lemma {:induction false} DistanceExpands(a: seq<real>, b: seq<real>)
    requires |a| == |b|
    ensures SquaredDistance(a, b) == SquaredLength(a) + SquaredLength(b) - 2.0 * Dot(a, b)
  {
    if a == [] {
    } else {
      var n := |a| - 1;
      DistanceExpands(a[..n], b[..n]);
      SquareOfDifference(a[n], b[n]);
    }
  }

  lemma ScoreTimesLengths(sqrt: real -> real, a: seq<real>, b: seq<real>)
    requires IsSqrt(sqrt) && |a| == |b|
    ensures Times(Times(sqrt(SquaredLength(a)), sqrt(SquaredLength(b))), Score(sqrt, a, b)) == Dot(a, b)
  {
    var D, denom := Dot(a, b), Times(sqrt(Dot(a, a)), sqrt(Dot(b, b)));
    LengthIsDot(a);
    LengthIsDot(b);
    if a != [] && denom != 0.0 {
      Divide(D, denom);
      Comm(D / denom, denom);
    } else {
      DenomSquared(sqrt, a, b);
      CauchySchwarz(a, b);
      Sign(denom, Score(sqrt, a, b));
      if a == [] {
        Sign(denom, 0.0);
        Comm(denom, 0.0);
      }
      Sign(0.0, 0.0);
      SquareOrder(D, 0.0);
    }
  }

  /**
   The law of cosines, which fixes every score: for all vectors of one length, the squared
   distance is the sum of the squared lengths less twice the product of the lengths and the
   score. For unit vectors it is 2 - 2 * score. Vectors of different lengths score 0.
   */
  lemma LawOfCosines(sqrt: real -> real, a: seq<real>, b: seq<real>)
    requires IsSqrt(sqrt)
    ensures |a| == |b| ==>
              SquaredDistance(a, b) ==
              SquaredLength(a) + SquaredLength(b)
              - 2.0 * Times(Times(sqrt(SquaredLength(a)), sqrt(SquaredLength(b))), Score(sqrt, a, b))
    ensures |a| == |b| && SquaredLength(a) == 1.0 && SquaredLength(b) == 1.0 ==>
              SquaredDistance(a, b) == 2.0 - 2.0 * Score(sqrt, a, b)
    ensures |a| != |b| ==> Score(sqrt, a, b) == 0.0
  {
    if |a| == |b| {
      DistanceExpands(a, b);
      ScoreTimesLengths(sqrt, a, b);
      UnitRoot(sqrt);
      assert Times(1.0, Score(sqrt, a, b)) == Score(sqrt, a, b) && Times(1.0, 1.0) == 1.0;
    }
  }

  lemma UnitRoot(sqrt: real -> real)
    requires IsSqrt(sqrt)
    ensures sqrt(1.0) == 1.0
  {
    var p := sqrt(1.0);
    assert Times(1.0, 1.0) == 1.0;
    SquareOrder(p, 1.0);
    SquareOrder(1.0, p);
  }

  function Scale(t: real, a: seq<real>): (r: seq<real>)
    ensures |r| == |a| && forall i :: 0 <= i < |r| ==> r[i] == Times(t, a[i])
  {
    seq(|a|, i requires 0 <= i < |a| => Times(t, a[i]))
  }

  lemma {:induction false} DotScale(t: real, a: seq<real>, b: seq<real>)
    requires |a| == |b|
    ensures Dot(Scale(t, a), b) == Times(t, Dot(a, b))
    ensures Dot(Scale(t, a), Scale(t, a)) == Times(t, Times(t, Dot(a, a)))
  {
    if a == [] {
      Sign(t, 0.0);
    } else {
      var n := |a| - 1;
      var x, y := a[n], b[n];
      DotScale(t, a[..n], b[..n]);
      assert Scale(t, a)[..n] == Scale(t, a[..n]);
      Dist(t, Dot(a[..n], b[..n]), Times(x, y));
      Assoc(t, x, y);
      Dist(t, Dot(a[..n], a[..n]), Times(x, x));
      Dist(t, Times(t, Dot(a[..n], a[..n])), Times(t, Times(x, x)));
      Assoc(t, x, Times(t, x));
      Comm(x, Times(t, x));
      Assoc(t, x, x);
    }
  }

  lemma SqrtScales(sqrt: real -> real, t: real, x: real)
    requires IsSqrt(sqrt) && t > 0.0 && x >= 0.0
    ensures sqrt(Times(t, Times(t, x))) == Times(t, sqrt(x))
  {
    var q := sqrt(x);
    Sign(t, x);
    Sign(t, Times(t, x));
    Sign(t, q);
    var q' := sqrt(Times(t, Times(t, x)));
    assert Times(Times(t, q), Times(t, q)) == Times(t, Times(t, x)) by {
      Assoc(t, q, Times(t, q));
      Comm(q, Times(t, q));
      Assoc(t, q, q);
    }
    SquareOrder(q', Times(t, q));
    SquareOrder(Times(t, q), q');
  }

  /** Only the direction counts: scaling a vector by a positive factor keeps every score. */
  lemma ScaleInvariant(sqrt: real -> real, t: real, a: seq<real>, b: seq<real>)
    requires IsSqrt(sqrt) && t > 0.0
    ensures Score(sqrt, Scale(t, a), b) == Score(sqrt, a, b)
  {
    if |a| == |b| && a != [] {
      var D := Dot(a, b);
      var p, q := sqrt(Dot(a, a)), sqrt(Dot(b, b));
      var denom := Times(p, q);
      DotScale(t, a, b);
      DotSelfNonneg(a);
      SqrtScales(sqrt, t, Dot(a, a));
      Assoc(t, p, q);
      Sign(t, denom);
      if denom != 0.0 {
        var r := D / denom;
        Divide(D, denom);
        assert Times(r, Times(t, denom)) == Times(t, D) by {
          Assoc(r, t, denom);
          Comm(r, t);
          Assoc(t, r, denom);
        }
        QuotientIs(Times(t, D), Times(t, denom), r);
      }
    }
  }
}
