/** Pearson correlation over exact reals, with the square root as any function that is one. */
module Correlation {
  import opened Reals

  function Dot(xs: seq<real>, ys: seq<real>): real
    requires |xs| == |ys|
  {
    if xs == [] then 0.0
    else
      var n := |xs| - 1;
      Dot(xs[..n], ys[..n]) + Times(xs[n], ys[n])
  }

  function Mean(xs: seq<real>): real
    requires xs != []
  {
    Sum(xs) / |xs| as real
  }

  function Line(x: real, c: real, d: real): real {
    c * x + d
  }

  /** c x + d, element by element. */
  function Affine(xs: seq<real>, c: real, d: real): (r: seq<real>)
    ensures |r| == |xs| && forall i :: 0 <= i < |xs| ==> r[i] == Line(xs[i], c, d)
  {
    seq(|xs|, i requires 0 <= i < |xs| => Line(xs[i], c, d))
  }

  function Centered(xs: seq<real>): (r: seq<real>)
    requires xs != []
    ensures |r| == |xs| && forall i :: 0 <= i < |xs| ==> r[i] == xs[i] - Mean(xs)
  {
    seq(|xs|, i requires 0 <= i < |xs| => xs[i] - Mean(xs))
  }

  function Cov(a: seq<real>, b: seq<real>): real
    requires |a| == |b| && a != []
  {
    Dot(Centered(a), Centered(b))
  }

  /** The ValueError for unequal or too short series, None for a constant one, or the value. */
  datatype Outcome = Invalid | Undefined | Rho(value: real)

  ghost predicate IsSqrt(sqrt: real -> real) {
    forall x :: 0.0 <= x ==> 0.0 <= sqrt(x) && sqrt(x) * sqrt(x) == x
  }

  function Correlate(a: seq<real>, b: seq<real>, sqrt: real -> real): Outcome
    requires IsSqrt(sqrt)
  {
    if |a| != |b| || |a| < 2 then Invalid
    else FromMoments(Cov(a, b), Cov(a, a), Cov(b, b), sqrt)
  }

  function FromMoments(cov: real, varA: real, varB: real, sqrt: real -> real): Outcome
    requires IsSqrt(sqrt)
  {
    if varA == 0.0 || varB == 0.0 then Undefined
    else
      var root := sqrt(varA * varB);
      if root == 0.0 then Undefined else Rho(cov / root)
  }

  // ---------------------------------------------------------------- Cauchy-Schwarz

  lemma SquareSign(x: real)
    ensures Times(x, x) >= 0.0
    ensures Times(x, x) == 0.0 <==> x == 0.0
  {
    if x == 0.0 {
      assert Times(0.0, 0.0) == 0.0;
    } else {
      SameSquare(x, -x);
      var y := if x > 0.0 then x else -x;
      PositiveTimes(y, y);
    }
  }

  lemma SameSquare(x: real, y: real)
    requires y == x || y == -x
    ensures Times(x, x) == Times(y, y)
  {
  }

  lemma {:induction false} DotSelfNonNegative(xs: seq<real>)
    ensures Dot(xs, xs) >= 0.0
    ensures Dot(xs, xs) == 0.0 <==> forall i :: 0 <= i < |xs| ==> xs[i] == 0.0
  {
    hide Times;
    if xs != [] {
      var n := |xs| - 1;
      DotSelfNonNegative(xs[..n]);
      SquareSign(xs[n]);
      assert forall i :: 0 <= i < n ==> xs[..n][i] == xs[i];
    }
  }

  function Difference(s: real, x: real, t: real, y: real): real {
    s * x - t * y
  }

  /** s x - t y, element by element. */
  function Combine(xs: seq<real>, ys: seq<real>, s: real, t: real): (r: seq<real>)
    requires |xs| == |ys|
    ensures |r| == |xs| && forall i :: 0 <= i < |xs| ==> r[i] == Difference(s, xs[i], t, ys[i])
  {
    seq(|xs|, i requires 0 <= i < |xs| => Difference(s, xs[i], t, ys[i]))
  }

  /** s^2 a - 2 s t b + t^2 c. */
  function Quadratic(s: real, t: real, a: real, b: real, c: real): real {
    s * s * a - 2.0 * (s * t) * b + t * t * c
  }

  lemma QuadraticAdds(s: real, t: real, a: real, b: real, c: real, x: real, y: real, z: real)
    ensures Quadratic(s, t, a, b, c) + Quadratic(s, t, x, y, z) == Quadratic(s, t, a + x, b + y, c + z)
  {
    var s2, st, t2 := s * s, s * t, t * t;
    assert s2 * (a + x) == s2 * a + s2 * x;
    assert st * (b + y) == st * b + st * y;
    assert t2 * (c + z) == t2 * c + t2 * z;
  }

  lemma SquareOfDifference(s: real, t: real, x: real, y: real)
    ensures Times(Difference(s, x, t, y), Difference(s, x, t, y))
        == Quadratic(s, t, Times(x, x), Times(x, y), Times(y, y))
  {
    var u, v := s * x, t * y;
    assert (u - v) * (u - v) == u * u - 2.0 * (u * v) + v * v;
    assert u * u == s * s * (x * x) && v * v == t * t * (y * y) && u * v == (s * t) * (x * y);
  }

  lemma {:induction false} CombinedSquare(xs: seq<real>, ys: seq<real>, s: real, t: real)
    requires |xs| == |ys|
    ensures Dot(Combine(xs, ys, s, t), Combine(xs, ys, s, t)) == Quadratic(s, t, Dot(xs, xs), Dot(xs, ys), Dot(ys, ys))
  {
    if xs == [] {
      assert Quadratic(s, t, 0.0, 0.0, 0.0) == 0.0;
    } else {
      hide Times, Quadratic, Difference;
      var n := |xs| - 1;
      CombinedSquare(xs[..n], ys[..n], s, t);
      var z := Combine(xs, ys, s, t);
      assert z[..n] == Combine(xs[..n], ys[..n], s, t);
      SquareOfDifference(s, t, xs[n], ys[n]);
      QuadraticAdds(s, t, Dot(xs[..n], xs[..n]), Dot(xs[..n], ys[..n]), Dot(ys[..n], ys[..n]),
                    Times(xs[n], xs[n]), Times(xs[n], ys[n]), Times(ys[n], ys[n]));
      assert z[n] == Difference(s, xs[n], t, ys[n]);
      hide Combine;
    }
  }

  lemma {:induction false} DotZero(xs: seq<real>, ys: seq<real>)
    requires |xs| == |ys| && forall i :: 0 <= i < |ys| ==> ys[i] == 0.0
    ensures Dot(xs, ys) == 0.0
  {
    if xs != [] {
      DotZero(xs[..|xs| - 1], ys[..|xs| - 1]);
    }
  }

  lemma Discriminant(a: real, b: real, c: real)
    requires b > 0.0 && Quadratic(b, c, a, c, b) >= 0.0
    ensures c * c <= a * b
  {
    var d := a * b - c * c;
    assert Quadratic(b, c, a, c, b) == b * d;
    if d < 0.0 {
      PositiveProduct(b, -d);
    }
  }

  lemma CauchySchwarz(xs: seq<real>, ys: seq<real>)
    requires |xs| == |ys|
    ensures Dot(xs, ys) * Dot(xs, ys) <= Dot(xs, xs) * Dot(ys, ys)
  {
    DotSelfNonNegative(ys);
    if Dot(ys, ys) == 0.0 {
      DotZero(xs, ys);
      hide Dot;
    } else {
      CombinedSquare(xs, ys, Dot(ys, ys), Dot(xs, ys));
      DotSelfNonNegative(Combine(xs, ys, Dot(ys, ys), Dot(xs, ys)));
      hide Dot, Combine, Quadratic;
      Discriminant(Dot(xs, xs), Dot(ys, ys), Dot(xs, ys));
    }
  }

  // ---------------------------------------------------------------- bounds and None

  lemma NonzeroFactor(x: real, y: real)
    ensures x * y != 0.0 ==> x != 0.0
  {
    if x == 0.0 {
      assert x * y == 0.0;
    }
  }

  lemma RootOfPositive(p: real, root: real)
    requires p > 0.0 && root >= 0.0 && root * root == p
    ensures root > 0.0
  {
    assert root * root != 0.0;
    NonzeroFactor(root, root);
  }

  lemma BoundedByRoot(c: real, root: real)
    requires root > 0.0 && c * c <= root * root
    ensures -root <= c <= root
  {
    assert (root - c) * (root + c) == root * root - c * c;
    if c > root {
      PositiveProduct(c - root, c + root);
    } else if c < -root {
      PositiveProduct(root - c, -root - c);
    }
  }

  lemma QuotientInUnit(c: real, root: real)
    requires root > 0.0 && -root <= c <= root
    ensures -1.0 <= c / root <= 1.0
  {
    var q := c / root;
    assert q * root == c;
    if q > 1.0 {
      PositiveProduct(q - 1.0, root);
    } else if q < -1.0 {
      PositiveProduct(-1.0 - q, root);
    }
  }

  lemma MomentsBounded(cov: real, varA: real, varB: real, sqrt: real -> real)
    requires IsSqrt(sqrt) && varA >= 0.0 && varB >= 0.0 && cov * cov <= varA * varB
    ensures !FromMoments(cov, varA, varB, sqrt).Invalid?
    ensures FromMoments(cov, varA, varB, sqrt).Undefined? <==> varA == 0.0 || varB == 0.0
    ensures var rho := FromMoments(cov, varA, varB, sqrt); rho.Rho? ==> -1.0 <= rho.value <= 1.0
  {
    if varA > 0.0 && varB > 0.0 {
      PositiveProduct(varA, varB);
      var p := varA * varB;
      RootOfPositive(p, sqrt(p));
      BoundedByRoot(cov, sqrt(p));
      QuotientInUnit(cov, sqrt(p));
    }
  }

  /** |rho| <= 1, and a value exists exactly for two equally long series of at least two points of
      which neither is constant. */
  lemma CorrelationIsBounded(a: seq<real>, b: seq<real>, sqrt: real -> real)
    requires IsSqrt(sqrt)
    ensures Correlate(a, b, sqrt).Rho? ==> -1.0 <= Correlate(a, b, sqrt).value <= 1.0
    ensures Correlate(a, b, sqrt).Invalid? <==> |a| != |b| || |a| < 2
    ensures |a| == |b| && |a| >= 2 ==> (Correlate(a, b, sqrt).Undefined? <==> IsConstant(a) || IsConstant(b))
  {
    if |a| == |b| && |a| >= 2 {
      ConstantExactlyWhenNoVariance(a);
      ConstantExactlyWhenNoVariance(b);
      hide Cov, IsConstant, FromMoments, IsSqrt;
      CovarianceBound(a, b);
      MomentsBounded(Cov(a, b), Cov(a, a), Cov(b, b), sqrt);
    }
  }

  lemma CovarianceBound(a: seq<real>, b: seq<real>)
    requires |a| == |b| && a != []
    ensures Cov(a, b) * Cov(a, b) <= Cov(a, a) * Cov(b, b)
  {
    hide Dot, Centered;
    CauchySchwarz(Centered(a), Centered(b));
  }

  predicate IsConstant(xs: seq<real>) {
    forall i, j :: 0 <= i < |xs| && 0 <= j < |xs| ==> xs[i] == xs[j]
  }

  lemma {:induction false} SumOfEqual(xs: seq<real>, v: real)
    requires forall i :: 0 <= i < |xs| ==> xs[i] == v
    ensures Sum(xs) == v * |xs| as real
  {
    if xs != [] {
      var n := |xs| - 1;
      SumOfEqual(xs[..n], v);
      assert v * |xs| as real == v * n as real + v by { assert |xs| as real == n as real + 1.0; }
    }
  }

  lemma ConstantExactlyWhenNoVariance(xs: seq<real>)
    requires xs != []
    ensures Cov(xs, xs) >= 0.0
    ensures Cov(xs, xs) == 0.0 <==> IsConstant(xs)
  {
    DotSelfNonNegative(Centered(xs));
    hide Dot;
    if IsConstant(xs) {
      SumOfEqual(xs, xs[0]);
      Quotient(Sum(xs), |xs| as real, xs[0]);
      hide Sum;
    }
  }

  // ---------------------------------------------------------------- symmetry and scale

  lemma {:induction false} DotSymmetric(xs: seq<real>, ys: seq<real>)
    requires |xs| == |ys|
    ensures Dot(xs, ys) == Dot(ys, xs)
  {
    if xs != [] {
      DotSymmetric(xs[..|xs| - 1], ys[..|xs| - 1]);
    }
  }

  lemma MomentsCommute(cov: real, varA: real, varB: real, sqrt: real -> real)
    requires IsSqrt(sqrt)
    ensures FromMoments(cov, varA, varB, sqrt) == FromMoments(cov, varB, varA, sqrt)
  {
    assert varA * varB == varB * varA;
  }

  lemma CorrelationIsSymmetric(a: seq<real>, b: seq<real>, sqrt: real -> real)
    requires IsSqrt(sqrt)
    ensures Correlate(a, b, sqrt) == Correlate(b, a, sqrt)
  {
    if |a| == |b| && |a| >= 2 {
      DotSymmetric(Centered(a), Centered(b));
      hide Dot, Centered;
      MomentsCommute(Cov(a, b), Cov(a, a), Cov(b, b), sqrt);
    }
  }

  lemma SumOfLine(c: real, d: real, total: real, x: real, n: real)
    ensures c * total + d * n + Line(x, c, d) == c * (total + x) + d * (n + 1.0)
  {
  }

  lemma {:induction false} SumOfAffine(xs: seq<real>, c: real, d: real)
    ensures Sum(Affine(xs, c, d)) == c * Sum(xs) + d * |xs| as real
  {
    if xs != [] {
      hide Line;
      var n := |xs| - 1;
      SumOfAffine(xs[..n], c, d);
      assert Affine(xs, c, d)[..n] == Affine(xs[..n], c, d);
      SumOfLine(c, d, Sum(xs[..n]), xs[n], n as real);
      assert |xs| as real == n as real + 1.0;
      hide Affine;
    }
  }

  lemma LineTimesCount(c: real, d: real, m: real, n: real, total: real)
    requires total == c * (m * n) + d * n
    ensures total == Line(m, c, d) * n
  {
    assert (c * m + d) * n == (c * m) * n + d * n;
    assert (c * m) * n == c * (m * n);
  }

  lemma MeanOfAffine(xs: seq<real>, c: real, d: real)
    requires xs != []
    ensures Mean(Affine(xs, c, d)) == Line(Mean(xs), c, d)
  {
    SumOfAffine(xs, c, d);
    var n, m := |xs| as real, Mean(xs);
    assert m * n == Sum(xs);
    hide Sum, Affine;
    LineTimesCount(c, d, m, n, c * Sum(xs) + d * n);
    Quotient(c * Sum(xs) + d * n, n, Line(m, c, d));
  }

  lemma LineOfCentered(x: real, m: real, c: real, d: real)
    ensures Line(x, c, d) - Line(m, c, d) == Line(x - m, c, 0.0)
  {
    assert c * (x - m) == c * x - c * m;
  }

  lemma CenteredAffine(xs: seq<real>, c: real, d: real)
    requires xs != []
    ensures Centered(Affine(xs, c, d)) == Affine(Centered(xs), c, 0.0)
  {
    MeanOfAffine(xs, c, d);
    hide Mean, Line;
    forall i | 0 <= i < |xs| ensures Centered(Affine(xs, c, d))[i] == Affine(Centered(xs), c, 0.0)[i] {
      LineOfCentered(xs[i], Mean(xs), c, d);
    }
  }

  lemma TimesOfLine(c: real, x: real, y: real, dot: real)
    ensures c * dot + Times(Line(x, c, 0.0), y) == c * (dot + Times(x, y))
  {
    assert (c * x) * y == c * (x * y);
  }

  lemma {:induction false} DotScaled(xs: seq<real>, ys: seq<real>, c: real)
    requires |xs| == |ys|
    ensures Dot(Affine(xs, c, 0.0), ys) == c * Dot(xs, ys)
  {
    if xs != [] {
      hide Line, Times;
      var n := |xs| - 1;
      DotScaled(xs[..n], ys[..n], c);
      assert Affine(xs, c, 0.0)[..n] == Affine(xs[..n], c, 0.0);
      TimesOfLine(c, xs[n], ys[n], Dot(xs[..n], ys[..n]));
      hide Affine;
    }
  }

  lemma CovOfAffine(a: seq<real>, b: seq<real>, c: real, d: real)
    requires |a| == |b| && a != []
    ensures Cov(Affine(a, c, d), b) == Times(c, Cov(a, b))
    ensures Cov(Affine(a, c, d), Affine(a, c, d)) == Times(c, Times(c, Cov(a, a)))
  {
    hide Dot, Centered, Affine;
    CenteredAffine(a, c, d);
    DotScaled(Centered(a), Centered(b), c);
    DotScaled(Centered(a), Affine(Centered(a), c, 0.0), c);
    DotSymmetric(Centered(a), Affine(Centered(a), c, 0.0));
    DotScaled(Centered(a), Centered(a), c);
  }

  lemma SameRoot(c: real, p: real, root: real, root': real)
    requires c > 0.0 && root > 0.0 && root' >= 0.0 && root * root == p && root' * root' == c * (c * p)
    ensures root' == c * root
  {
    var t := c * root;
    PositiveProduct(c, root);
    assert t * t == c * (c * (root * root));
    assert (root' - t) * (root' + t) == 0.0;
    if root' > t {
      PositiveProduct(root' - t, root' + t);
    } else if root' < t {
      PositiveProduct(t - root', root' + t);
    }
  }

  lemma SameQuotient(c: real, x: real, root: real)
    requires c > 0.0 && root > 0.0
    ensures (c * x) / (c * root) == x / root
  {
    var q := x / root;
    assert q * root == x;
    PositiveProduct(c, root);
    assert q * (c * root) == c * (q * root);
    Quotient(c * x, c * root, q);
  }

  lemma ScaledVariance(c: real, va: real, vb: real)
    requires c > 0.0 && va >= 0.0
    ensures Times(c, Times(c, va)) == 0.0 <==> va == 0.0
    ensures Times(c, Times(c, va)) >= 0.0
    ensures Times(c, Times(c, va)) * vb == Times(c, Times(c, va * vb))
    ensures va > 0.0 && vb > 0.0 ==> Times(c, Times(c, va * vb)) > 0.0 && va * vb > 0.0
  {
    if va > 0.0 {
      PositiveProduct(c, va);
      PositiveProduct(c, c * va);
      if vb > 0.0 {
        PositiveProduct(va, vb);
        PositiveProduct(c, va * vb);
        PositiveProduct(c, c * (va * vb));
      }
    }
  }

  lemma MomentsScale(c: real, cov: real, varA: real, varB: real, sqrt: real -> real, cov': real, varA': real)
    requires IsSqrt(sqrt) && c > 0.0 && varA >= 0.0 && varB >= 0.0
    requires cov' == Times(c, cov) && varA' == Times(c, Times(c, varA))
    ensures FromMoments(cov', varA', varB, sqrt) == FromMoments(cov, varA, varB, sqrt)
  {
    ScaledVariance(c, varA, varB);
    if varA > 0.0 && varB > 0.0 {
      var p, p' := varA * varB, varA' * varB;
      hide *;
      ScaledRoot(c, p, p', sqrt);
      RatioScales(c, cov, sqrt(p), cov', sqrt(p'));
      DefinedMoments(cov, varA, varB, sqrt);
      DefinedMoments(cov', varA', varB, sqrt);
    }
  }

  lemma DefinedMoments(cov: real, varA: real, varB: real, sqrt: real -> real)
    requires IsSqrt(sqrt) && varA > 0.0 && varB > 0.0 && sqrt(varA * varB) > 0.0
    ensures FromMoments(cov, varA, varB, sqrt) == Rho(cov / sqrt(varA * varB))
  {
  }

  lemma ScaledRoot(c: real, p: real, p': real, sqrt: real -> real)
    requires IsSqrt(sqrt) && c > 0.0 && p > 0.0 && p' > 0.0 && p' == Times(c, Times(c, p))
    ensures sqrt(p) > 0.0 && sqrt(p') > 0.0 && sqrt(p') == Times(c, sqrt(p))
  {
    RootOfPositive(p, sqrt(p));
    RootOfPositive(p', sqrt(p'));
    SameRoot(c, p, sqrt(p), sqrt(p'));
  }

  lemma RatioScales(c: real, x: real, root: real, x': real, root': real)
    requires c > 0.0 && root > 0.0 && root' > 0.0 && x' == Times(c, x) && root' == Times(c, root)
    ensures x' / root' == x / root
  {
    SameQuotient(c, x, root);
  }

  /** Shifting a series, or scaling it by a positive factor, changes nothing. */
  lemma CorrelationIsScaleFree(a: seq<real>, b: seq<real>, c: real, d: real, sqrt: real -> real)
    requires IsSqrt(sqrt) && c > 0.0
    ensures Correlate(Affine(a, c, d), b, sqrt) == Correlate(a, b, sqrt)
  {
    if |a| == |b| && |a| >= 2 {
      CovOfAffine(a, b, c, d);
      ConstantExactlyWhenNoVariance(a);
      ConstantExactlyWhenNoVariance(b);
      hide Cov, IsConstant, FromMoments, IsSqrt, Times;
      MomentsScale(c, Cov(a, b), Cov(a, a), Cov(b, b), sqrt,
                   Cov(Affine(a, c, d), b), Cov(Affine(a, c, d), Affine(a, c, d)));
    }
  }
}
