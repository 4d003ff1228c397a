/** The correlation in raw sums, which fixes its value and its sign. */
module RawCorrelation {
  import opened Reals
  import opened Correlation

  /** Element by element. */
  function Products(a: seq<real>, b: seq<real>): (r: seq<real>)
    requires |a| == |b|
    ensures |r| == |a| && forall i :: 0 <= i < |r| ==> r[i] == Times(a[i], b[i])
  {
    seq(|a|, i requires 0 <= i < |a| => Times(a[i], b[i]))
  }

  lemma {:induction false} DotIsSumOfProducts(a: seq<real>, b: seq<real>)
    requires |a| == |b|
    ensures Dot(a, b) == Sum(Products(a, b))
  {
    if a != [] {
      hide Times;
      var n := |a| - 1;
      DotIsSumOfProducts(a[..n], b[..n]);
      assert Products(a, b)[..n] == Products(a[..n], b[..n]);
    }
  }

  /** Every element less m. */
  function Less(a: seq<real>, m: real): (r: seq<real>)
    ensures |r| == |a| && forall i :: 0 <= i < |r| ==> r[i] == a[i] - m
  {
    seq(|a|, i requires 0 <= i < |a| => a[i] - m)
  }

  /** Sum of (a - m)(b - k), from the sums of ab, a and b over n elements. */
  function Expanded(ab: real, sa: real, sb: real, n: real, m: real, k: real): real {
    ab - k * sa - m * sb + n * (m * k)
  }

  lemma ExpandedStep(ab: real, sa: real, sb: real, n: real, m: real, k: real, x: real, y: real)
    ensures Expanded(ab, sa, sb, n, m, k) + Times(x - m, y - k)
         == Expanded(ab + Times(x, y), sa + x, sb + y, n + 1.0, m, k)
  {
    assert (x - m) * (y - k) == x * y - k * x - m * y + m * k;
    assert k * (sa + x) == k * sa + k * x;
    assert m * (sb + y) == m * sb + m * y;
    assert (n + 1.0) * (m * k) == n * (m * k) + m * k;
  }

  lemma {:induction false} DotOfLess(a: seq<real>, b: seq<real>, m: real, k: real)
    requires |a| == |b|
    ensures Dot(Less(a, m), Less(b, k)) == Expanded(Dot(a, b), Sum(a), Sum(b), |a| as real, m, k)
  {
    if a == [] {
      assert Expanded(0.0, 0.0, 0.0, 0.0, m, k) == 0.0;
    } else {
      hide Times, Expanded;
      var n := |a| - 1;
      DotOfLess(a[..n], b[..n], m, k);
      assert Less(a, m)[..n] == Less(a[..n], m) && Less(b, k)[..n] == Less(b[..n], k);
      assert Less(a, m)[n] == a[n] - m && Less(b, k)[n] == b[n] - k;
      hide Less;
      ExpandedStep(Dot(a[..n], b[..n]), Sum(a[..n]), Sum(b[..n]), n as real, m, k, a[n], b[n]);
      assert |a| as real == n as real + 1.0;
    }
  }

  /** n times the sum of products, less the product of the sums. */
  function Moment(a: seq<real>, b: seq<real>): real
    requires |a| == |b|
  {
    |a| as real * Sum(Products(a, b)) - Sum(a) * Sum(b)
  }

  lemma ExpandedAtMeans(ab: real, sa: real, sb: real, n: real, m: real, k: real)
    requires m * n == sa && k * n == sb
    ensures n * Expanded(ab, sa, sb, n, m, k) == n * ab - sa * sb
  {
    assert n * (k * sa) == (k * n) * sa;
    assert n * (m * sb) == (m * n) * sb;
    assert n * (n * (m * k)) == (m * n) * (k * n);
    assert n * (ab - k * sa - m * sb + n * (m * k)) == n * ab - n * (k * sa) - n * (m * sb) + n * (n * (m * k));
  }

  lemma MeanTimesCount(a: seq<real>)
    requires a != []
    ensures Mean(a) * |a| as real == Sum(a)
  {
    hide Sum;
  }

  lemma CovExpanded(a: seq<real>, b: seq<real>)
    requires |a| == |b| && a != []
    ensures Cov(a, b) == Expanded(Sum(Products(a, b)), Sum(a), Sum(b), |a| as real, Mean(a), Mean(b))
  {
    hide Mean, Dot, Sum, Expanded, Products;
    assert Centered(a) == Less(a, Mean(a)) && Centered(b) == Less(b, Mean(b));
    DotOfLess(a, b, Mean(a), Mean(b));
    DotIsSumOfProducts(a, b);
  }

  /** n times the covariance sum is the raw moment. */
  lemma MomentIsScaledCov(a: seq<real>, b: seq<real>)
    requires |a| == |b| && a != []
    ensures |a| as real * Cov(a, b) == Moment(a, b)
  {
    hide Sum, Mean, Expanded, Products, Cov;
    CovExpanded(a, b);
    MeanTimesCount(a);
    MeanTimesCount(b);
    ExpandedAtMeans(Sum(Products(a, b)), Sum(a), Sum(b), |a| as real, Mean(a), Mean(b));
  }

  /** `root` is the square root of the product of two raw variances, and `value` times it is the raw
      covariance. */
  ghost predicate IsRho(value: real, root: real, a: seq<real>, b: seq<real>)
    requires |a| == |b|
  {
    root >= 0.0 && root * root == Moment(a, a) * Moment(b, b) && value * root == Moment(a, b)
  }

  lemma RootInMoments(cov: real, varA: real, varB: real, n: real, sqrt: real -> real, m: real, ma: real, mb: real)
    returns (root: real)
    requires IsSqrt(sqrt) && n > 0.0 && varA > 0.0 && varB > 0.0
    requires m == n * cov && ma == n * varA && mb == n * varB
    ensures FromMoments(cov, varA, varB, sqrt).Rho?
    ensures root >= 0.0 && root * root == ma * mb && FromMoments(cov, varA, varB, sqrt).value * root == m
  {
    PositiveProduct(varA, varB);
    var p := varA * varB;
    RootOfPositive(p, sqrt(p));
    DefinedMoments(cov, varA, varB, sqrt);
    root := n * sqrt(p);
    hide FromMoments, IsSqrt;
    InMoments(cov, varA, varB, n, sqrt(p), p, cov / sqrt(p));
  }

  lemma InMoments(cov: real, varA: real, varB: real, n: real, root: real, p: real, q: real)
    requires n > 0.0 && root > 0.0 && p == varA * varB && root * root == p && q == cov / root
    ensures n * root >= 0.0 && (n * root) * (n * root) == (n * varA) * (n * varB) && q * (n * root) == n * cov
  {
    PositiveProduct(n, root);
    assert q * root == cov;
    assert q * (n * root) == n * (q * root);
    assert (n * root) * (n * root) == (n * n) * (root * root);
    assert (n * varA) * (n * varB) == (n * n) * (varA * varB);
  }

  lemma DefinedMeansVariance(a: seq<real>, b: seq<real>, sqrt: real -> real)
    requires IsSqrt(sqrt) && Correlate(a, b, sqrt).Rho?
    ensures |a| == |b| && |a| >= 2 && Cov(a, a) > 0.0 && Cov(b, b) > 0.0
    ensures Correlate(a, b, sqrt) == FromMoments(Cov(a, b), Cov(a, a), Cov(b, b), sqrt)
  {
    ConstantExactlyWhenNoVariance(a);
    ConstantExactlyWhenNoVariance(b);
    hide Cov, IsConstant, IsSqrt;
  }

  /** THE VALUE. Whenever there is a correlation, it is the quotient of the raw moments. */
  lemma CorrelationInRawSums(a: seq<real>, b: seq<real>, sqrt: real -> real)
    requires IsSqrt(sqrt) && Correlate(a, b, sqrt).Rho?
    ensures |a| == |b| && exists root :: IsRho(Correlate(a, b, sqrt).value, root, a, b)
  {
    hide Cov, Moment, IsSqrt, FromMoments, Correlate;
    DefinedMeansVariance(a, b, sqrt);
    MomentIsScaledCov(a, b);
    MomentIsScaledCov(a, a);
    MomentIsScaledCov(b, b);
    var root := RootInMoments(Cov(a, b), Cov(a, a), Cov(b, b), |a| as real, sqrt,
                              Moment(a, b), Moment(a, a), Moment(b, b));
    assert IsRho(Correlate(a, b, sqrt).value, root, a, b);
  }

  /** A series moves with itself, and against its mirror image. */
  lemma SelfAndMirror(a: seq<real>, d: real, sqrt: real -> real)
    requires IsSqrt(sqrt) && |a| >= 2 && !IsConstant(a)
    ensures Correlate(a, a, sqrt) == Rho(1.0)
    ensures Correlate(a, Affine(a, -1.0, d), sqrt) == Rho(-1.0)
  {
    ConstantExactlyWhenNoVariance(a);
    CovOfAffine(a, a, -1.0, d);
    DotSymmetric(Centered(a), Centered(Affine(a, -1.0, d)));
    hide Dot, Centered, IsConstant, Affine, FromMoments, IsSqrt;
    var v := Cov(a, a);
    UnitMoments(v, v, v, sqrt);
    UnitMoments(-v, v, v, sqrt);
    assert Times(-1.0, v) == -v && Times(-1.0, Times(-1.0, v)) == v;
  }

  lemma UnitMoments(cov: real, varA: real, varB: real, sqrt: real -> real)
    requires IsSqrt(sqrt) && varA > 0.0 && varB == varA && (cov == varA || cov == -varA)
    ensures FromMoments(cov, varA, varB, sqrt) == Rho(if cov == varA then 1.0 else -1.0)
  {
    hide FromMoments, IsSqrt, Times;
    var root := DefinedRoot(cov, varA, varB, sqrt);
    SquareRoot(varA, varB, root);
    if cov == varA {
      Quotient(cov, varA, 1.0);
    } else {
      Quotient(cov, varA, -1.0);
    }
  }

  lemma DefinedRoot(cov: real, varA: real, varB: real, sqrt: real -> real) returns (root: real)
    requires IsSqrt(sqrt) && varA > 0.0 && varB > 0.0
    ensures root > 0.0 && root * root == Times(varA, varB) && FromMoments(cov, varA, varB, sqrt) == Rho(cov / root)
  {
    PositiveProduct(varA, varB);
    root := sqrt(varA * varB);
    RootOfPositive(varA * varB, root);
    DefinedMoments(cov, varA, varB, sqrt);
  }

  lemma SquareRoot(v: real, w: real, root: real)
    requires v > 0.0 && w == v && root > 0.0 && root * root == Times(v, w)
    ensures root == v
  {
    assert (root - v) * (root + v) == root * root - v * v;
    if root > v {
      PositiveProduct(root - v, root + v);
    } else if root < v {
      PositiveProduct(v - root, root + v);
    }
  }
}
