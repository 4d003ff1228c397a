/** The Kupiec test without logarithms: the likelihood ratio against the best-fitting breach rate
    rises and then falls in the number of breaches, so the accepted counts are an interval. */
module Kupiec {
  import opened Trading
  import opened Reals
  import opened Binomial

  /** q^x (1-q)^(n-x), with 0^0 = 1. */
  function Likelihood(q: real, n: nat, x: nat): real
    requires x <= n
  {
    Pow(q, x) * Pow(1.0 - q, n - x)
  }

  /** m^m, with 0^0 = 1. */
  function Self(m: nat): real {
    Pow(m as real, m)
  }

  lemma {:induction false} PowPositive(b: real, e: nat)
    requires b > 0.0 || e == 0
    ensures Pow(b, e) > 0.0
  {
    if e > 0 {
      if e > 1 { PowPositive(b, e - 1); }
      assert Pow(b, e) == b * Pow(b, e - 1);
    }
  }

  lemma SelfPositive(m: nat)
    ensures Self(m) > 0.0
  {
    PowPositive(m as real, m);
  }

  // ---------------------------------------------------------------- Bernoulli

  lemma BernoulliStep(c: real, m: real, low: real, high: real, low': real, high': real)
    requires c >= 1.0 && m >= 0.0 && high > 0.0
    requires c * low >= (c - m) * high
    requires low' == (c - 1.0) * low && high' == c * high
    ensures c * low' >= (c - (m + 1.0)) * high'
  {
    assert (c - 1.0) * (c * low) >= (c - 1.0) * ((c - m) * high);
    assert (c - 1.0) * ((c - m) * high) == (c - m - 1.0) * (c * high) + m * high;
    assert m * high >= 0.0;
    assert c * ((c - 1.0) * low) == (c - 1.0) * (c * low);
  }

  /** Bernoulli's inequality, cleared of its denominator. */
  lemma {:induction false} Bernoulli(c: real, m: nat, r: real)
    requires c >= 1.0 && r == m as real
    ensures c * Pow(c - 1.0, m) >= (c - r) * Pow(c, m)
  {
    if m == 0 {
      assert Pow(c - 1.0, 0) == 1.0 && Pow(c, 0) == 1.0;
    } else {
      var low, high, low', high' := Pow(c - 1.0, m - 1), Pow(c, m - 1), Pow(c - 1.0, m), Pow(c, m);
      assert low' == (c - 1.0) * low && high' == c * high;
      hide Pow;
      Bernoulli(c, m - 1, r - 1.0);
      PowPositive(c, m - 1);
      BernoulliStep(c, r - 1.0, low, high, low', high');
    }
  }

  lemma {:induction false} PowProduct(a: real, b: real, e: nat)
    ensures Pow(a * b, e) == Pow(a, e) * Pow(b, e)
  {
    if e > 0 {
      PowProduct(a, b, e - 1);
      Regroup(a, b, Pow(a, e - 1), Pow(b, e - 1));
    }
  }

  lemma Regroup(a: real, b: real, c: real, d: real)
    ensures (a * b) * (c * d) == (a * c) * (b * d)
  {
  }

  lemma Quartic(m: real)
    requires m >= 0.0
    ensures ((m + 1.0) * (m + 1.0) - m) * ((m + 2.0) * (m + 2.0)) >= ((m + 1.0) * (m + 1.0)) * ((m + 1.0) * (m + 1.0))
  {
    var s := m * m;
    assert (m + 1.0) * (m + 1.0) == s + 2.0 * m + 1.0;
    assert (m + 2.0) * (m + 2.0) == s + 4.0 * m + 4.0;
    assert (s + m + 1.0) * (s + 4.0 * m + 4.0) == s * s + 5.0 * (s * m) + 9.0 * s + 8.0 * m + 4.0;
    assert (s + 2.0 * m + 1.0) * (s + 2.0 * m + 1.0) == s * s + 4.0 * (s * m) + 6.0 * s + 4.0 * m + 1.0;
    assert s * m >= 0.0;
  }

  lemma CancelFactor(c: real, x: real, y: real)
    requires c > 0.0 && c * x >= c * y
    ensures x >= y
  {
  }

  lemma ScaleBy(x: real, y: real, z: real)
    requires x >= y && z >= 0.0
    ensures x * z >= y * z
  {
  }

  lemma Rotate(x: real, y: real, z: real)
    ensures (x * y) * z == (x * z) * y == x * (y * z)
  {
  }

  lemma ChainInequality(c: real, t: real, d: real, low: real, high: real)
    requires c > 0.0 && d >= 0.0 && high >= 0.0
    requires c * low >= t * high && t * d >= c * c
    ensures low * d >= c * high
  {
    ScaleBy(c * low, t * high, d);
    ScaleBy(t * d, c * c, high);
    Rotate(c, low, d);
    Rotate(t, high, d);
    Rotate(c, c, high);
    CancelFactor(c, low * d, c * high);
  }

  lemma Squares(r: real, u: real, v: real)
    requires r >= 0.0 && u == r + 1.0 && v == r + 2.0
    ensures u * u >= 1.0 && v * v >= 0.0
    ensures u * u - 1.0 == r * v
    ensures (u * u - r) * (v * v) >= (u * u) * (u * u)
  {
    Quartic(r);
  }

  /** From Bernoulli at c = (m+1)^2: (c-1)^m (m+2)^2 >= c^m c. */
  lemma CentralInequality(m: nat, r: real, c: real, d: real)
    requires r == m as real && c >= 1.0 && d >= 0.0 && (c - r) * d >= c * c
    ensures Pow(c - 1.0, m) * d >= c * Pow(c, m)
  {
    hide Pow;
    Bernoulli(c, m, r);
    PowPositive(c, m);
    ChainInequality(c, c - r, d, Pow(c - 1.0, m), Pow(c, m));
  }

  lemma PowProductIs(t: real, a: real, b: real, e: nat)
    requires t == a * b
    ensures Pow(t, e) == Pow(a, e) * Pow(b, e)
  {
    PowProduct(a, b, e);
  }

  lemma CentralSplit(m: nat, r: real, u: real, v: real)
    requires r == m as real && u == r + 1.0 && v == r + 2.0
    ensures (Pow(r, m) * Pow(v, m)) * (v * v) >= (u * u) * (Pow(u, m) * Pow(u, m))
  {
    hide Pow;
    var c, d := u * u, v * v;
    Squares(r, u, v);
    CentralInequality(m, r, c, d);
    PowProductIs(c - 1.0, r, v, m);
    PowProductIs(c, u, u, m);
  }

  lemma SelfIs(m: nat, r: real, u: real, v: real)
    requires r == m as real && u == r + 1.0 && v == r + 2.0
    ensures Self(m) == Pow(r, m) && Self(m + 1) == u * Pow(u, m) && Self(m + 2) == v * (v * Pow(v, m))
  {
    SelfAt(m);
    hide Pow, Self;
  }

  /** (m+1)^(m+1) / m^m grows with m. */
  lemma SelfIsLogConvex(m: nat)
    ensures Self(m + 1) * Self(m + 1) <= Self(m) * Self(m + 2)
  {
    hide Pow, Self;
    var r, u, v := m as real, m as real + 1.0, m as real + 2.0;
    var a, b, e := Pow(r, m), Pow(v, m), Pow(u, m);
    CentralSplit(m, r, u, v);
    SelfIs(m, r, u, v);
    Products(Self(m), Self(m + 1), Self(m + 2), a, b, e, u, v);
  }

  lemma PowSame(x: real, y: real, e: nat)
    requires x == y
    ensures Pow(x, e) == Pow(y, e)
  {
  }

  lemma Products(s0: real, s1: real, s2: real, a: real, b: real, e: real, u: real, v: real)
    requires s0 == a && s1 == u * e && s2 == v * (v * b)
    requires (a * b) * (v * v) >= (u * u) * (e * e)
    ensures s1 * s1 <= s0 * s2
  {
    Regroup(u, e, u, e);
    Rotate(v, v, b);
    Rotate(a, b, v * v);
    assert a * ((v * v) * b) == (a * (v * v)) * b;
  }

  lemma SelfAt(m: nat)
    ensures Self(m) == Pow(m as real, m)
    ensures Self(m + 1) == (m as real + 1.0) * Pow(m as real + 1.0, m)
    ensures Self(m + 2) == (m as real + 2.0) * ((m as real + 2.0) * Pow(m as real + 2.0, m))
  {
    var u, v := (m + 1) as real, (m + 2) as real;
    assert u == m as real + 1.0 && v == m as real + 2.0;
    assert Pow(u, m + 1) == u * Pow(u, m);
    assert Pow(v, m + 2) == v * Pow(v, m + 1);
    assert Pow(v, m + 1) == v * Pow(v, m);
    PowSame(u, m as real + 1.0, m);
    PowSame(v, m as real + 2.0, m);
    hide Pow;
  }

  // ---------------------------------------------------------------- the likelihood ratio

  lemma {:induction false} PowSum(b: real, i: nat, j: nat)
    ensures Pow(b, i + j) == Pow(b, i) * Pow(b, j)
  {
    if i > 0 {
      PowSum(b, i - 1, j);
      Rotate(b, Pow(b, i - 1), Pow(b, j));
    }
  }

  lemma QuotientTimes(x: real, n: real, q: real)
    requires n > 0.0 && q == x / n
    ensures q * n == x && (1.0 - q) * n == n - x
    ensures x > 0.0 ==> q > 0.0
    ensures x < n ==> 1.0 - q > 0.0
  {
    assert q * n == x;
    if x < n {
      assert (1.0 - q) * n > 0.0;
    }
  }

  /** The likelihood at the observed breach rate. */
  function Fit(n: nat, x: nat): (f: real)
    requires 0 < n && x <= n
    ensures f > 0.0
  {
    QuotientTimes(x as real, n as real, x as real / n as real);
    PowPositive(x as real / n as real, x);
    PowPositive(1.0 - x as real / n as real, n - x);
    Likelihood(x as real / n as real, n, x)
  }

  /** Likelihood of the claimed rate p over that of the observed rate: exp(-LR / 2). */
  function Ratio(p: real, n: nat, x: nat): real
    requires 0 < n && x <= n
  {
    Likelihood(p, n, x) / Fit(n, x)
  }

  lemma PowQuotient(x: nat, n: real, q: real)
    requires n > 0.0 && q * n == x as real
    ensures Pow(q, x) * Pow(n, x) == Self(x)
  {
    PowProductIs(x as real, q, n, x);
  }

  lemma FitAt(n: nat, x: nat, q: real)
    requires 0 < n && x <= n && q == x as real / n as real
    ensures Fit(n, x) == Pow(q, x) * Pow(1.0 - q, n - x)
  {
    hide Pow;
  }

  lemma FitIsSelf(n: nat, x: nat)
    requires 0 < n && x <= n
    ensures Times(Fit(n, x), Pow(n as real, n)) == Times(Self(x), Self(n - x))
  {
    var r := n as real;
    var q := x as real / r;
    FitAt(n, x, q);
    QuotientTimes(x as real, r, q);
    hide *;
    FitFromRate(Fit(n, x), n, x, r, q, 1.0 - q);
  }

  lemma FitFromRate(f: real, n: nat, x: nat, r: real, q: real, q': real)
    requires 0 < n && x <= n && r == n as real
    requires q * r == x as real && q' * r == (n - x) as real
    requires f == Pow(q, x) * Pow(q', n - x)
    ensures Times(f, Pow(r, n)) == Times(Self(x), Self(n - x))
  {
    hide Pow, Self;
    PowQuotient(x, r, q);
    PowQuotient(n - x, r, q');
    PowSum(r, x, n - x);
    FourWay(f, Pow(q, x), Pow(q', n - x), Pow(r, n), Pow(r, x), Pow(r, n - x), Self(x), Self(n - x));
  }

  lemma FourWay(f: real, a: real, b: real, g: real, c: real, d: real, s: real, t: real)
    requires f == a * b && g == c * d && a * c == s && b * d == t
    ensures f * g == s * t
  {
    Regroup(a, b, c, d);
  }

  predicate Tilts(p: real, q: real, high: real, low: real) {
    q * high <= p * low
  }

  /** One more breach does not lower the ratio. */
  predicate Up(p: real, n: nat, x: nat)
    requires x < n
  {
    Tilts(p, 1.0 - p, Times(Self(x + 1), Self(n - x - 1)), Times(Self(x), Self(n - x)))
  }

  lemma UpEarlierCore(p: real, q: real, a0: real, a1: real, a2: real, b0: real, b1: real, b2: real)
    requires p >= 0.0 && q >= 0.0 && a0 > 0.0 && a1 > 0.0 && a2 > 0.0 && b0 > 0.0 && b1 > 0.0 && b2 > 0.0
    requires a1 * a1 <= a0 * a2 && b1 * b1 <= b0 * b2
    requires Tilts(p, q, Times(a2, b0), Times(a1, b1))
    ensures Tilts(p, q, Times(a1, b1), Times(a0, b2))
  {
    var t, s := a1 * b1, a0 * b2;
    assert t > 0.0 && s > 0.0;
    ProductsOrdered(a1 * a1, a0 * a2, b1 * b1, b0 * b2);
    Regroup(a1, a1, b1, b1);
    assert (a0 * a2) * (b0 * b2) == (a2 * b0) * s;
    ScaleBy((a2 * b0) * s, t * t, q);
    ScaleBy(p * t, q * (a2 * b0), s);
    assert q * ((a2 * b0) * s) == (q * (a2 * b0)) * s;
    assert q * (t * t) == t * (q * t) && (p * t) * s == t * (p * s);
    CancelFactor(t, p * s, q * t);
  }

  lemma ProductsOrdered(a: real, b: real, c: real, d: real)
    requires 0.0 <= a <= b && 0.0 <= c <= d
    ensures a * c <= b * d
  {
    assert a * c <= b * c <= b * d;
  }

  lemma UpEarlier(p: real, n: nat, x: nat)
    requires 0.0 < p < 1.0 && x + 1 < n && Up(p, n, x + 1)
    ensures Up(p, n, x)
  {
    SelfPositive(x); SelfPositive(x + 1); SelfPositive(x + 2);
    SelfPositive(n - x - 2); SelfPositive(n - x - 1); SelfPositive(n - x);
    SelfIsLogConvex(x);
    SelfIsLogConvex(n - x - 2);
    hide Self, Tilts, Times;
    UpEarlierCore(p, 1.0 - p, Self(x), Self(x + 1), Self(x + 2), Self(n - x - 2), Self(n - x - 1), Self(n - x));
  }

  lemma QuotientsOrdered(a: real, f: real, b: real, g: real)
    requires f > 0.0 && g > 0.0
    ensures a / f <= b / g <==> a * g <= b * f
  {
    var x, y := a / f, b / g;
    assert x * f == a && y * g == b;
    assert a * g == x * (f * g) && b * f == y * (f * g);
    assert f * g > 0.0;
  }

  lemma RiseCore(p: real, q: real, a: real, f: real, g: real, m: real, d: real, d': real, l: real, l': real)
    requires a > 0.0 && m > 0.0 && f > 0.0 && g > 0.0
    requires Times(f, m) == d && Times(g, m) == d' && l == Times(a, q) && l' == Times(a, p)
    ensures l / f <= l' / g <==> Tilts(p, q, d', d)
  {
    QuotientsOrdered(l, f, l', g);
    CrossScaled(a, q, g, m, d', l);
    CrossScaled(a, p, f, m, d, l');
    SameOrder(m, a, l * g, l' * f, q * d', p * d);
  }

  lemma SameOrder(m: real, a: real, x: real, y: real, u: real, v: real)
    requires m > 0.0 && a > 0.0 && m * x == a * u && m * y == a * v
    ensures x <= y <==> u <= v
  {
    CancelExactly(m, x, y, m * x, m * y);
    CancelExactly(a, u, v, a * u, a * v);
  }

  lemma CancelExactly(c: real, x: real, y: real, cx: real, cy: real)
    requires c > 0.0 && cx == c * x && cy == c * y
    ensures cx <= cy <==> x <= y
  {
    assert c * (y - x) == cy - cx;
  }

  lemma CrossScaled(a: real, q: real, g: real, m: real, d: real, l: real)
    requires g * m == d && l == a * q
    ensures m * (l * g) == a * (q * d)
  {
    assert (a * q) * (g * m) == a * (q * (g * m));
  }

  /** The ratio rises from x to x+1 breaches exactly when `Up`. */
  lemma RatioRisesExactlyWhenUp(p: real, n: nat, x: nat)
    requires 0.0 < p < 1.0 && x < n
    ensures Ratio(p, n, x) <= Ratio(p, n, x + 1) <==> Up(p, n, x)
  {
    var q := 1.0 - p;
    var s, t := Pow(p, x), Pow(q, n - x - 1);
    PowPositive(p, x);
    PowPositive(q, n - x - 1);
    PowPositive(n as real, n);
    FitIsSelf(n, x);
    FitIsSelf(n, x + 1);
    LikelihoodSteps(p, q, n, x, s, t);
    RatioAt(p, n, x, Likelihood(p, n, x), Fit(n, x));
    RatioAt(p, n, x + 1, Likelihood(p, n, x + 1), Fit(n, x + 1));
    hide Pow, Self, Fit, Likelihood, Tilts, Ratio, Times;
    PositiveTimes(s, t);
    RiseCore(p, q, Times(s, t), Fit(n, x), Fit(n, x + 1), Pow(n as real, n),
             Times(Self(x), Self(n - x)), Times(Self(x + 1), Self(n - x - 1)),
             Likelihood(p, n, x), Likelihood(p, n, x + 1));
  }

  lemma RatioAt(p: real, n: nat, x: nat, l: real, f: real)
    requires 0 < n && x <= n && l == Likelihood(p, n, x) && f == Fit(n, x)
    ensures Ratio(p, n, x) == l / f
  {
    hide Likelihood, Fit;
  }

  lemma LikelihoodSteps(p: real, q: real, n: nat, x: nat, s: real, t: real)
    requires q == 1.0 - p && x < n && s == Pow(p, x) && t == Pow(q, n - x - 1)
    ensures Likelihood(p, n, x) == Times(Times(s, t), q)
    ensures Likelihood(p, n, x + 1) == Times(Times(s, t), p)
  {
    var t', s' := Pow(q, n - x), Pow(p, x + 1);
    assert t' == q * t && s' == p * s;
    hide Pow;
    assert Likelihood(p, n, x) == s * t' && Likelihood(p, n, x + 1) == s' * t;
    hide Likelihood;
    FactorOut(s, q, t, t', Likelihood(p, n, x));
    FactorOut(t, p, s, s', Likelihood(p, n, x + 1));
  }

  lemma FactorOut(s: real, q: real, t: real, t': real, l: real)
    requires t' == q * t && l == s * t'
    ensures l == (s * t) * q && l == (t * s) * q
  {
  }

  lemma {:induction false} RisesTo(p: real, n: nat, a: nat, m: nat)
    requires 0.0 < p < 1.0 && a <= m < n && Up(p, n, m)
    ensures Ratio(p, n, a) <= Ratio(p, n, m + 1)
    decreases m - a
  {
    hide Up, Ratio;
    RatioRisesExactlyWhenUp(p, n, m);
    if a < m {
      UpEarlier(p, n, m - 1);
      RisesTo(p, n, a, m - 1);
    }
  }

  lemma {:induction false} FallsFrom(p: real, n: nat, m: nat, b: nat)
    requires 0.0 < p < 1.0 && m < b <= n && !Up(p, n, m)
    ensures Ratio(p, n, m) >= Ratio(p, n, b)
    decreases b - m
  {
    hide Up, Ratio;
    RatioRisesExactlyWhenUp(p, n, m);
    if m + 1 < b {
      if Up(p, n, m + 1) {
        UpEarlier(p, n, m);
      }
      FallsFrom(p, n, m + 1, b);
    }
  }

  /** Between two breach counts the ratio never dips below the smaller of the two. */
  lemma RatioIsUnimodal(p: real, n: nat, a: nat, m: nat, b: nat)
    requires 0.0 < p < 1.0 && 0 < n && a <= m <= b <= n
    ensures Ratio(p, n, m) >= Ratio(p, n, a) || Ratio(p, n, m) >= Ratio(p, n, b)
  {
    hide Ratio, Up;
    if a < m < b {
      if Up(p, n, m - 1) {
        RisesTo(p, n, a, m - 1);
      } else {
        if Up(p, n, m) {
          UpEarlier(p, n, m - 1);
        }
        FallsFrom(p, n, m, b);
      }
    }
  }

  // ---------------------------------------------------------------- the acceptance region

  /** The test accepts when LR is at most its critical value, that is, when the ratio, which the
      code clamps at 1, is at least `threshold`. */
  predicate Accepted(p: real, n: nat, x: nat, threshold: real)
    requires 0 < n && x <= n
  {
    (if Ratio(p, n, x) < 1.0 then Ratio(p, n, x) else 1.0) >= threshold
  }

  /** The accepted counts below m, in order. */
  function Kept(p: real, n: nat, m: nat, threshold: real): seq<nat>
    requires 0 < n && m <= n + 1
  {
    if m == 0 then []
    else Kept(p, n, m - 1, threshold) + if Accepted(p, n, m - 1, threshold) then [m - 1] else []
  }

  /** Smallest and largest accepted count; None is the IndexError when nothing is accepted. */
  function AcceptanceRegion(p: real, n: nat, threshold: real): Option<(nat, nat)>
    requires 0 < n
  {
    var kept := Kept(p, n, n + 1, threshold);
    if kept == [] then None else Some((kept[0], kept[|kept| - 1]))
  }

  lemma {:induction false} KeptIsAccepted(p: real, n: nat, m: nat, threshold: real)
    requires 0 < n && m <= n + 1
    ensures forall i :: 0 <= i < |Kept(p, n, m, threshold)| ==>
              Kept(p, n, m, threshold)[i] < m && Accepted(p, n, Kept(p, n, m, threshold)[i], threshold)
    ensures forall i, j :: 0 <= i < j < |Kept(p, n, m, threshold)| ==>
              Kept(p, n, m, threshold)[i] < Kept(p, n, m, threshold)[j]
    ensures forall x :: 0 <= x < m && Accepted(p, n, x, threshold) ==> x in Kept(p, n, m, threshold)
  {
    hide Accepted;
    if m > 0 {
      KeptIsAccepted(p, n, m - 1, threshold);
      var prefix := Kept(p, n, m - 1, threshold);
      forall x | 0 <= x < m && Accepted(p, n, x, threshold) ensures x in Kept(p, n, m, threshold) {
        if x < m - 1 {
          assert x in prefix;
        }
      }
    }
  }

  /** THE ACCEPTANCE REGION IS AN INTERVAL: the pair of its ends characterises the test, for every
      sample size, claimed rate and threshold. */
  lemma AcceptanceIsAnInterval(p: real, n: nat, threshold: real)
    requires 0.0 < p < 1.0 && 0 < n
    ensures AcceptanceRegion(p, n, threshold).None? <==> forall x :: 0 <= x <= n ==> !Accepted(p, n, x, threshold)
    ensures AcceptanceRegion(p, n, threshold).Some? ==>
              var (low, high) := AcceptanceRegion(p, n, threshold).value;
              && low <= high <= n
              && forall x :: 0 <= x <= n ==> (Accepted(p, n, x, threshold) <==> low <= x <= high)
  {
    var kept := Kept(p, n, n + 1, threshold);
    KeptIsAccepted(p, n, n + 1, threshold);
    hide Kept;
    if kept != [] {
      var low, high := kept[0], kept[|kept| - 1];
      assert Accepted(p, n, low, threshold) && Accepted(p, n, high, threshold);
      forall x | 0 <= x <= n ensures Accepted(p, n, x, threshold) <==> low <= x <= high {
        if low <= x <= high {
          RatioIsUnimodal(p, n, low, x, high);
          hide Ratio;
        }
        assert Accepted(p, n, x, threshold) ==> x in kept;
      }
    }
  }
}
