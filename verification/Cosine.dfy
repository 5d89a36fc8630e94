/**
 * The cosine similarity loop of poc/vector_search/main.go, over the reals: its accumulators
 * satisfy the Cauchy-Schwarz inequality, so scores lie between -1 and 1.
 */
module Cosine {

  /** The three accumulators after the first `n` coordinates. */
  function Dot(a: seq<real>, b: seq<real>, n: nat): (d: real)
    requires n <= |a| && n <= |b|
  {
    if n == 0 then 0.0 else Dot(a, b, n - 1) + a[n - 1] * b[n - 1]
  }

  function Norm(a: seq<real>, n: nat): (s: real)
    requires n <= |a|
  {
    Dot(a, a, n)
  }

  lemma SquareIsNonNegative(x: real)
    ensures x * x >= 0.0
  {
  }

  lemma {:induction false} NormIsNonNegative(a: seq<real>, n: nat)
    requires n <= |a|
    ensures Norm(a, n) >= 0.0
  {
    if n > 0 {
      NormIsNonNegative(a, n - 1);
      SquareIsNonNegative(a[n - 1]);
    }
  }

  lemma CompleteTheSquare(A: real, B: real, d: real, x: real, y: real)
    ensures A * (A * (y * y) - 2.0 * (d * (x * y)) + B * (x * x))
            == (A * y - d * x) * (A * y - d * x) + (A * B - d * d) * (x * x)
  {
    var P, Q, R := A * y, d * x, x * x;
    assert (P - Q) * (P - Q) == P * P - 2.0 * (P * Q) + Q * Q;
    assert P * P == A * (A * (y * y));
    assert P * Q == A * (d * (x * y));
    assert Q * Q == d * d * R;
    assert (A * B - d * d) * R == A * (B * R) - d * d * R;
    var s, t, v := A * (y * y), d * (x * y), B * R;
    assert A * (s - 2.0 * t + v) == A * s - 2.0 * (A * t) + A * v;
  }

  /** The form A*y*y - 2*d*x*y + B*x*x is never negative when d*d <= A*B. */
  lemma FormIsNonNegative(A: real, B: real, d: real, x: real, y: real)
    requires A >= 0.0 && B >= 0.0 && d * d <= A * B
    ensures A * (y * y) - 2.0 * (d * (x * y)) + B * (x * x) >= 0.0
  {
    var form := A * (y * y) - 2.0 * (d * (x * y)) + B * (x * x);
    SquareIsNonNegative(x);
    if A == 0.0 {
      ZeroOrPositiveSquare(d);
      assert d * (x * y) == 0.0;
      ProductIsNonNegative(B, x * x);
    } else {
      var u, w := A * y - d * x, A * B - d * d;
      CompleteTheSquare(A, B, d, x, y);
      SquareIsNonNegative(u);
      ProductIsNonNegative(w, x * x);
      PositiveFactor(A, form);
    }
  }

  lemma PositiveProduct(x: real, y: real)
    requires x > 0.0 && y > 0.0
    ensures x * y > 0.0
  {
  }

  lemma ZeroOrPositiveSquare(d: real)
    ensures d == 0.0 || d * d > 0.0
  {
    if d > 0.0 {
      PositiveProduct(d, d);
    } else if d < 0.0 {
      PositiveProduct(-d, -d);
      assert (-d) * (-d) == d * d;
    }
  }

  lemma ProductIsNonNegative(x: real, y: real)
    requires x >= 0.0 && y >= 0.0
    ensures x * y >= 0.0
  {
  }

  lemma PositiveFactor(a: real, x: real)
    requires a > 0.0 && a * x >= 0.0
    ensures x >= 0.0
  {
  }

  /** One coordinate more keeps the inequality. */
  lemma StepKeepsInequality(A: real, B: real, d: real, x: real, y: real)
    requires A >= 0.0 && B >= 0.0 && d * d <= A * B
    ensures (d + x * y) * (d + x * y) <= (A + x * x) * (B + y * y)
  {
    FormIsNonNegative(A, B, d, x, y);
    assert (d + x * y) * (d + x * y) == d * d + 2.0 * (d * (x * y)) + (x * y) * (x * y);
    assert (A + x * x) * (B + y * y) == A * B + A * (y * y) + B * (x * x) + (x * x) * (y * y);
    assert (x * y) * (x * y) == (x * x) * (y * y);
  }

  /** Cauchy-Schwarz for the accumulators at every point of the loop. */
  lemma {:induction false} CauchySchwarz(a: seq<real>, b: seq<real>, n: nat)
    requires n <= |a| && n <= |b|
    ensures Dot(a, b, n) * Dot(a, b, n) <= Norm(a, n) * Norm(b, n)
  {
    if n > 0 {
      CauchySchwarz(a, b, n - 1);
      NormIsNonNegative(a, n - 1);
      NormIsNonNegative(b, n - 1);
      StepKeepsInequality(Norm(a, n - 1), Norm(b, n - 1), Dot(a, b, n - 1), a[n - 1], b[n - 1]);
    }
  }

  /** What the score needs of the square root. */
  ghost predicate IsSquareRoot(sqrt: real -> real) {
    forall x :: x >= 0.0 ==> sqrt(x) >= 0.0 && sqrt(x) * sqrt(x) == x
  }

  lemma LargerSquare(x: real, y: real)
    requires x > y >= 0.0
    ensures x * x > y * y
  {
    PositiveProduct(x - y, x + y);
    assert (x - y) * (x + y) == x * x - y * y;
  }

  lemma SquaresOrder(x: real, y: real)
    requires y >= 0.0 && x * x <= y * y
    ensures -y <= x <= y
  {
    assert (-x) * (-x) == x * x;
    if x > y {
      LargerSquare(x, y);
    } else if -x > y {
      LargerSquare(-x, y);
    }
  }

  lemma LargerProduct(q: real, p: real)
    requires p > 0.0 && q > 1.0
    ensures q * p > p
  {
    PositiveProduct(q - 1.0, p);
    assert (q - 1.0) * p == q * p - p;
  }

  lemma ScoreBounds(d: real, s: real, t: real, A: real, B: real)
    requires s > 0.0 && t > 0.0 && s * s == A && t * t == B && d * d <= A * B
    ensures s * t > 0.0 && -1.0 <= d / (s * t) <= 1.0
  {
    var p := s * t;
    PositiveProduct(s, t);
    assert p * p == A * B by {
      assert p * p == (s * s) * (t * t);
    }
    SquaresOrder(d, p);
    var q := d / p;
    assert q * p == d;
    assert (-q) * p == -d;
    if q > 1.0 {
      LargerProduct(q, p);
    } else if -q > 1.0 {
      LargerProduct(-q, p);
    }
  }

  lemma SelfRatio(x: real)
    requires x != 0.0
    ensures x / x == 1.0
  {
  }

  /** Coordinates of `b` beyond the length of `a` are ignored; a shorter `b` would panic. */
  method CosineSimilarity(a: seq<real>, b: seq<real>, sqrt: real -> real) returns (score: real)
    requires |a| <= |b| && IsSquareRoot(sqrt)
    ensures -1.0 <= score <= 1.0
    ensures var A, B := Norm(a, |a|), Norm(b, |a|);
            if A == 0.0 || B == 0.0 then score == 0.0
            else score * (sqrt(A) * sqrt(B)) == Dot(a, b, |a|)
    ensures a == b && Norm(a, |a|) != 0.0 ==> score == 1.0
  {
    var dotProduct, normA, normB := 0.0, 0.0, 0.0;
    for i := 0 to |a|
      invariant dotProduct == Dot(a, b, i) && normA == Norm(a, i) && normB == Norm(b, i)
    {
      dotProduct := dotProduct + a[i] * b[i];
      normA := normA + a[i] * a[i];
      normB := normB + b[i] * b[i];
    }
    if normA == 0.0 || normB == 0.0 {
      return 0.0;
    }
    CauchySchwarz(a, b, |a|);
    NormIsNonNegative(a, |a|);
    NormIsNonNegative(b, |a|);
    var s, t := sqrt(normA), sqrt(normB);
    ScoreBounds(dotProduct, s, t, normA, normB);
    score := dotProduct / (s * t);
    if a == b {
      assert normA == normB == dotProduct;
      assert s * t == dotProduct;
      SelfRatio(dotProduct);
    }
  }
}
