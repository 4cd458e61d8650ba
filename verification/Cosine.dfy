/** Cosine similarity over reals. The square root is a parameter; a result that is not a number is None. */
module Cosine {

  datatype Option<+T> = None | Some(value: T)

  type Vector = seq<real>

  function Dot(a: Vector, b: Vector): real
    requires |a| == |b|
  {
    if a == [] then 0.0 else Dot(a[..|a| - 1], b[..|b| - 1]) + a[|a| - 1] * b[|b| - 1]
  }

  function Score(sqrt: real -> real, a: Vector, b: Vector): Option<real> {
    if |a| != |b| || |a| == 0 then None
    else Ratio(Dot(a, b), Dot(a, a), Dot(b, b), sqrt)
  }

  function Ratio(dot: real, normA: real, normB: real, sqrt: real -> real): Option<real> {
    if normA == 0.0 || normB == 0.0 then None
    else
      var d := sqrt(normA) * sqrt(normB);
      if d == 0.0 then None else Some(dot / d)
  }

  method Similarity(sqrt: real -> real, a: Vector, b: Vector) returns (r: Option<real>)
    ensures r == Score(sqrt, a, b)
  {
    if |a| != |b| || |a| == 0 {
      return None;
    }
    var dot, normA, normB := 0.0, 0.0, 0.0;
    for i := 0 to |a|
      invariant dot == Dot(a[..i], b[..i]) && normA == Dot(a[..i], a[..i]) && normB == Dot(b[..i], b[..i])
    {
      assert a[..i + 1][..i] == a[..i] && b[..i + 1][..i] == b[..i];
      dot := dot + a[i] * b[i];
      normA := normA + a[i] * a[i];
      normB := normB + b[i] * b[i];
    }
    assert a[..|a|] == a && b[..|b|] == b;
    return Ratio(dot, normA, normB, sqrt);
  }

  // ----- bounds

  lemma {:induction false} NormNotNegative(a: Vector)
    ensures Dot(a, a) >= 0.0
  {
    if a != [] {
      NormNotNegative(a[..|a| - 1]);
      var x := a[|a| - 1];
      assert x * x >= 0.0;
    }
  }

  function Poly(aa: real, ab: real, bb: real, t: real): real {
    aa * t * t + 2.0 * ab * t + bb
  }

  lemma PolySquare(x: real, y: real, p: real, q: real, r: real, t: real)
    requires p == x * x && q == x * y && r == y * y
    ensures Poly(p, q, r, t) >= 0.0
  {
    var z := x * t + y;
    assert z * z >= 0.0;
    calc {
      z * z;
      (x * t) * (x * t) + 2.0 * ((x * t) * y) + y * y;
      { assert (x * t) * (x * t) == x * x * t * t; assert (x * t) * y == (x * y) * t; }
      x * x * t * t + 2.0 * (x * y) * t + y * y;
    }
  }

  lemma PolyAdd(aa: real, ab: real, bb: real, p: real, q: real, r: real, x: real, y: real, z: real, t: real)
    requires x == aa + p && y == ab + q && z == bb + r
    ensures Poly(x, y, z, t) == Poly(aa, ab, bb, t) + Poly(p, q, r, t)
  {
    assert x * t * t == aa * t * t + p * t * t;
    assert y * t == ab * t + q * t;
  }

  /** The squared length of a * t + b is a polynomial in t without negative values. */
  lemma {:induction false} PolyNotNegative(a: Vector, b: Vector, t: real)
    requires |a| == |b|
    ensures Poly(Dot(a, a), Dot(a, b), Dot(b, b), t) >= 0.0
  {
    hide Poly;
    if a != [] {
      var n := |a| - 1;
      PolyNotNegative(a[..n], b[..n], t);
      var p, q, r := a[n] * a[n], a[n] * b[n], b[n] * b[n];
      PolySquare(a[n], b[n], p, q, r, t);
      var aa, ab, bb := Dot(a[..n], a[..n]), Dot(a[..n], b[..n]), Dot(b[..n], b[..n]);
      PolyAdd(aa, ab, bb, p, q, r, Dot(a, a), Dot(a, b), Dot(b, b), t);
    } else {
      PolyZero(t);
    }
  }

  lemma PolyZero(t: real)
    ensures Poly(0.0, 0.0, 0.0, t) == 0.0
  {
  }

  /** A quadratic without negative values has no positive discriminant. */
  lemma Discriminant(aa: real, ab: real, bb: real)
    requires aa >= 0.0 && forall t :: Poly(aa, ab, bb, t) >= 0.0
    ensures ab * ab <= aa * bb
  {
    if aa > 0.0 {
      var t := -ab / aa;
      assert Poly(aa, ab, bb, t) >= 0.0;
      assert aa * t == -ab;
      assert aa * t * t == -ab * t;
      Scaled(aa, ab, bb, t);
    } else if ab != 0.0 {
      NegativeAt(ab, bb, -(bb + 1.0) / (2.0 * ab));
    }
  }

  lemma NegativeAt(ab: real, bb: real, t: real)
    requires ab != 0.0 && t == -(bb + 1.0) / (2.0 * ab)
    ensures Poly(0.0, ab, bb, t) == -1.0
  {
    assert 2.0 * ab * t == -(bb + 1.0);
  }

  lemma Scaled(aa: real, ab: real, bb: real, t: real)
    requires aa > 0.0 && aa * t == -ab && ab * t + bb >= 0.0
    ensures ab * ab <= aa * bb
  {
    assert aa * (ab * t + bb) == ab * (aa * t) + aa * bb;
    assert aa * (ab * t + bb) >= 0.0;
  }

  /** Cauchy-Schwarz. */
  lemma DotBounded(a: Vector, b: Vector)
    requires |a| == |b|
    ensures Dot(a, b) * Dot(a, b) <= Dot(a, a) * Dot(b, b)
  {
    hide Poly, Dot;
    NormNotNegative(a);
    forall t ensures Poly(Dot(a, a), Dot(a, b), Dot(b, b), t) >= 0.0 {
      PolyNotNegative(a, b, t);
    }
    Discriminant(Dot(a, a), Dot(a, b), Dot(b, b));
  }

  ghost predicate IsSqrt(sqrt: real -> real) {
    forall x: real :: x >= 0.0 ==> sqrt(x) >= 0.0 && sqrt(x) * sqrt(x) == x
  }

  lemma SquareGrows(x: real, d: real)
    requires x > d > 0.0
    ensures x * x > d * d
  {
    assert x * x > x * d > d * d;
  }

  lemma SmallRatio(dot: real, d: real)
    requires d > 0.0 && dot * dot <= d * d
    ensures -1.0 <= dot / d <= 1.0
  {
    assert dot * dot == -dot * -dot;
    if dot > d {
      SquareGrows(dot, d);
    } else if -dot > d {
      SquareGrows(-dot, d);
    } else {
      UnitRange(dot / d, d);
    }
  }

  lemma UnitRange(r: real, d: real)
    requires d > 0.0 && -d <= r * d <= d
    ensures -1.0 <= r <= 1.0
  {
    assert (r - 1.0) * d <= 0.0 && (r + 1.0) * d >= 0.0;
  }

  /** The length of the quotient's denominator. */
  lemma RatioBounded(dot: real, aa: real, bb: real, sqrt: real -> real)
    requires IsSqrt(sqrt) && aa >= 0.0 && bb >= 0.0 && dot * dot <= aa * bb
    ensures Ratio(dot, aa, bb, sqrt).Some? <==> aa > 0.0 && bb > 0.0
    ensures Ratio(dot, aa, bb, sqrt).Some? ==> -1.0 <= Ratio(dot, aa, bb, sqrt).value <= 1.0
  {
    if aa > 0.0 && bb > 0.0 {
      var p, q := sqrt(aa), sqrt(bb);
      assert p * p == aa && q * q == bb;
      Product(p, q);
      RatioIs(dot, aa, bb, sqrt, p * q);
      assert (p * q) * (p * q) == aa * bb;
      SmallRatio(dot, p * q);
    }
  }

  lemma RatioIs(dot: real, aa: real, bb: real, sqrt: real -> real, d: real)
    requires aa > 0.0 && bb > 0.0 && d == sqrt(aa) * sqrt(bb) && d > 0.0
    ensures Ratio(dot, aa, bb, sqrt) == Some(dot / d)
  {
  }

  lemma Product(p: real, q: real)
    requires p >= 0.0 && q >= 0.0 && p * p > 0.0 && q * q > 0.0
    ensures p * q > 0.0 && (p * q) * (p * q) == (p * p) * (q * q)
  {
    assert p > 0.0 && q > 0.0;
    assert (p * q) * (p * q) == p * (q * p) * q == p * (p * q) * q;
  }

  /** Every score lies between -1 and 1, and there is one exactly when both vectors have the same positive
  length and neither is zero. */
  lemma ScoreBounded(sqrt: real -> real, a: Vector, b: Vector)
    requires IsSqrt(sqrt)
    ensures Score(sqrt, a, b).Some? <==> |a| == |b| > 0 && Dot(a, a) > 0.0 && Dot(b, b) > 0.0
    ensures Score(sqrt, a, b).Some? ==> -1.0 <= Score(sqrt, a, b).value <= 1.0
  {
    hide Dot, Ratio, IsSqrt;
    if |a| == |b| > 0 {
      NormNotNegative(a);
      NormNotNegative(b);
      DotBounded(a, b);
      RatioBounded(Dot(a, b), Dot(a, a), Dot(b, b), sqrt);
    }
  }
}
