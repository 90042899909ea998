// The interval that a quantised dot product gives for the exact one.
//
// Over the reals; the floating-point guard that the source adds on top is not
// part of this model.
//
// Source: lib/segment/src/index/dense_rank_state/plans.rs
module ScalarCertificate {
  type Vector = seq<real>

  function Dot(x: Vector, y: Vector): real
    requires |x| == |y|
  {
    if x == [] then 0.0 else x[0] * y[0] + Dot(x[1..], y[1..])
  }

  // The sum of the first n products.
  function Products(x: Vector, y: Vector, n: nat): real
    requires n <= |x| == |y|
  {
    if n == 0 then 0.0 else Products(x, y, n - 1) + x[n - 1] * y[n - 1]
  }

  lemma {:induction false} DotOfRest(x: Vector, y: Vector, n: nat)
    requires n <= |x| == |y|
    ensures Products(x, y, n) + Dot(x[n..], y[n..]) == Products(x, y, |x|)
    decreases |x| - n
  {
    if n < |x| {
      DotOfRest(x, y, n + 1);
      assert x[n..][1..] == x[n + 1..] && y[n..][1..] == y[n + 1..];
    }
  }

  // The dot product is the sum of all products.
  lemma DotIsSum(x: Vector, y: Vector)
    requires |x| == |y|
    ensures Dot(x, y) == Products(x, y, |x|)
  {
    DotOfRest(x, y, 0);
    assert x[0..] == x && y[0..] == y;
  }

  function Minus(x: Vector, y: Vector): (r: Vector)
    requires |x| == |y|
    ensures |r| == |x|
  {
    if x == [] then [] else [x[0] - y[0]] + Minus(x[1..], y[1..])
  }

  // ---------------------------------------------------------------------
  // The inequality of Cauchy and Schwarz

  lemma SquareSign(a: real)
    ensures a * a >= 0.0
  {
  }

  lemma ProductSign(a: real, b: real)
    requires a >= 0.0 && b >= 0.0
    ensures a * b >= 0.0
  {
  }

  lemma PositiveProduct(a: real, b: real)
    requires a > 0.0 && b > 0.0
    ensures a * b > 0.0
  {
  }

  lemma Negate(a: real, b: real)
    ensures a * (-b) == -(a * b)
  {
  }

  lemma Distribute(a: real, b: real, c: real)
    ensures (a - b) * c == a * c - b * c
  {
  }

  lemma FactorSign(a: real, t: real)
    requires a > 0.0 && a * t >= 0.0
    ensures t >= 0.0
  {
    Negate(a, t);
    if t < 0.0 { PositiveProduct(a, -t); }
  }

  lemma Completed(s: real, a: real, b: real, x: real, y: real)
    ensures a * (a * (y * y) + b * (x * x) - 2.0 * (s * (x * y)))
         == (a * y - s * x) * (a * y - s * x) + (a * b - s * s) * (x * x)
  {
  }

  lemma Mixed(s: real, a: real, b: real, x: real, y: real)
    requires a >= 0.0 && b >= 0.0 && s * s <= a * b
    ensures 2.0 * (s * (x * y)) <= a * (y * y) + b * (x * x)
  {
    SquareSign(x);
    if a == 0.0 {
      SquareSign(s);
      ZeroSquare(s, s * s);
      ProductSign(b, x * x);
    } else {
      Completed(s, a, b, x, y);
      SquareSign(a * y - s * x);
      ProductSign(a * b - s * s, x * x);
      FactorSign(a, a * (y * y) + b * (x * x) - 2.0 * (s * (x * y)));
    }
  }

  lemma PositiveFactors(a: real, b: real, p: real)
    requires a > 0.0 && b > 0.0 && p == a * b
    ensures p > 0.0
  {
  }

  lemma ZeroSquare(s: real, p: real)
    requires p == s * s
    ensures p == 0.0 ==> s == 0.0
  {
    if s > 0.0 { PositiveFactors(s, s, p); } else if s < 0.0 { PositiveFactors(-s, -s, p); }
  }

  lemma Extended(s: real, a: real, b: real, x: real, y: real)
    requires a >= 0.0 && b >= 0.0 && s * s <= a * b
    ensures (x * y + s) * (x * y + s) <= (x * x + a) * (y * y + b)
  {
    Mixed(s, a, b, x, y);
    var p, u, v := x * y, x * x, y * y;
    assert (p + s) * (p + s) == p * p + 2.0 * (s * p) + s * s;
    assert (u + a) * (v + b) == u * v + u * b + a * v + a * b;
    assert p * p == u * v by { Regroup(x, y); }
    assert u * b == b * u;
  }

  lemma Regroup(x: real, y: real)
    ensures (x * y) * (x * y) == (x * x) * (y * y)
  {
  }

  lemma {:induction false} NormSign(x: Vector)
    ensures Dot(x, x) >= 0.0
    decreases |x|
  {
    if x != [] {
      NormSign(x[1..]);
      SquareSign(x[0]);
    }
  }

  ghost predicate CauchyHolds(x: Vector, y: Vector)
    requires |x| == |y|
  {
    Dot(x, y) * Dot(x, y) <= Dot(x, x) * Dot(y, y)
  }

  lemma CauchyStep(x: Vector, y: Vector)
    requires |x| == |y| > 0 && CauchyHolds(x[1..], y[1..])
    ensures CauchyHolds(x, y)
  {
    var s, a, b := Dot(x[1..], y[1..]), Dot(x[1..], x[1..]), Dot(y[1..], y[1..]);
    NormSign(x[1..]);
    NormSign(y[1..]);
    Grown(s, a, b, x[0], y[0], Dot(x, y), Dot(x, x), Dot(y, y));
  }

  lemma Grown(s: real, a: real, b: real, p: real, q: real, u: real, v: real, w: real)
    requires a >= 0.0 && b >= 0.0 && s * s <= a * b
    requires u == p * q + s && v == p * p + a && w == q * q + b
    ensures u * u <= v * w
  {
    Extended(s, a, b, p, q);
  }

  lemma {:induction false} CauchySchwarz(x: Vector, y: Vector)
    requires |x| == |y|
    ensures CauchyHolds(x, y)
    decreases |x|
  {
    if x != [] {
      CauchySchwarz(x[1..], y[1..]);
      CauchyStep(x, y);
    }
  }

  // A number that is at least the Euclidean norm.
  ghost predicate BoundsNorm(n: real, x: Vector) {
    n >= 0.0 && Dot(x, x) <= n * n
  }

  lemma SquareOrder(s: real, m: real, a: real, b: real)
    requires m >= 0.0 && a == s * s && b == m * m && a <= b
    ensures -m <= s <= m
  {
    if s > m { Larger(s, m, a, b); } else if -s > m { Larger(-s, m, a, b); }
  }

  lemma Larger(s: real, m: real, a: real, b: real)
    requires s > m >= 0.0 && a == s * s && b == m * m
    ensures a > b
  {
    var c := (s - m) * (s + m);
    Difference(s, m, a, b, c);
    PositiveFactors(s - m, s + m, c);
  }

  lemma Difference(s: real, m: real, a: real, b: real, c: real)
    requires a == s * s && b == m * m && c == (s - m) * (s + m)
    ensures c == a - b
  {
  }

  lemma ProductOrder(a: real, b: real, c: real, d: real)
    requires 0.0 <= a <= c && 0.0 <= b <= d
    ensures a * b <= c * d
  {
    ProductSign(c - a, b);
    ProductSign(c, d - b);
    Distribute(c, a, b);
    Distribute(d, b, c);
  }

  lemma DotBound(x: Vector, y: Vector, nx: real, ny: real)
    requires |x| == |y| && BoundsNorm(nx, x) && BoundsNorm(ny, y)
    ensures -(nx * ny) <= Dot(x, y) <= nx * ny
  {
    var s, a, b := Dot(x, y), Dot(x, x), Dot(y, y);
    assert s * s <= a * b by { CauchySchwarz(x, y); }
    assert 0.0 <= a by { NormSign(x); }
    assert 0.0 <= b by { NormSign(y); }
    Bounded(s, a, b, nx, ny);
  }

  lemma Bounded(s: real, a: real, b: real, nx: real, ny: real)
    requires 0.0 <= nx && 0.0 <= ny && 0.0 <= a <= nx * nx && 0.0 <= b <= ny * ny && s * s <= a * b
    ensures -(nx * ny) <= s <= nx * ny
  {
    ProductOrder(a, b, nx * nx, ny * ny);
    Regroup(nx, ny);
    ProductSign(nx, ny);
    SquareOrder(s, nx * ny, s * s, (nx * ny) * (nx * ny));
  }

  // ---------------------------------------------------------------------
  // The certificate

  // q.d - q'.d' is (q - q').d + q'.(d - d').
  lemma {:induction false} Split(q: Vector, d: Vector, q': Vector, d': Vector)
    requires |q| == |d| == |q'| == |d'|
    ensures Dot(q, d) - Dot(q', d') == Dot(Minus(q, q'), d) + Dot(q', Minus(d, d'))
    decreases |q|
  {
    if q != [] {
      Split(q[1..], d[1..], q'[1..], d'[1..]);
      assert Minus(q, q')[1..] == Minus(q[1..], q'[1..]) && Minus(d, d')[1..] == Minus(d[1..], d'[1..]);
      var a, b, c, e := q[0], d[0], q'[0], d'[0];
      assert a * b - c * e == (a - c) * b + c * (b - e);
    }
  }

  // What the quantised score can be off by.
  function ErrorBound(queryResidual: real, documentNorm: real, queryReconstructed: real, documentResidual: real): real {
    queryResidual * documentNorm + queryReconstructed * documentResidual
  }

  // The exact score lies in the interval around the quantised one, so a state
  // built from these intervals has a certificate that holds.
  lemma IntervalContainsScore(q: Vector, d: Vector, q': Vector, d': Vector,
                              queryResidual: real, documentNorm: real, queryReconstructed: real,
                              documentResidual: real, guard: real)
    requires |q| == |d| == |q'| == |d'| && guard >= 0.0
    requires BoundsNorm(queryResidual, Minus(q, q')) && BoundsNorm(documentNorm, d)
    requires BoundsNorm(queryReconstructed, q') && BoundsNorm(documentResidual, Minus(d, d'))
    ensures
      var error := ErrorBound(queryResidual, documentNorm, queryReconstructed, documentResidual);
      Dot(q', d') - error - guard <= Dot(q, d) <= Dot(q', d') + error + guard
  {
    Split(q, d, q', d');
    DotBound(Minus(q, q'), d, queryResidual, documentNorm);
    DotBound(q', Minus(d, d'), queryReconstructed, documentResidual);
  }
}
