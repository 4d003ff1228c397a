/** The power of the Kupiec test: one minus the binomial mass between the ends of the acceptance
    region is the probability that the test rejects. */
module KupiecPower {
  import opened Trading
  import opened Reals
  import opened Binomial
  import opened Kupiec

  /** Probability of x breaches in n days at breach rate r. */
  function Pmf(n: nat, x: nat, r: real): real {
    if x > n then 0.0 else Comb(n, x) as real * Likelihood(r, n, x)
  }

  /** Mass of the counts low, low + 1, ..., high - 1. */
  function Mass(n: nat, low: nat, high: nat, r: real): real
    requires low <= high
  {
    if low == high then 0.0 else Mass(n, low, high - 1, r) + Pmf(n, high - 1, r)
  }

  /** Mass of the counts below m that the test rejects. */
  function RejectedMass(p: real, n: nat, m: nat, threshold: real, r: real): real
    requires 0 < n && m <= n + 1
  {
    if m == 0 then 0.0
    else RejectedMass(p, n, m - 1, threshold, r) + if Accepted(p, n, m - 1, threshold) then 0.0 else Pmf(n, m - 1, r)
  }

  /** The code's power: one minus the sum over `range(low, high + 1)`. */
  function Power(p: real, n: nat, threshold: real, r: real): Option<real>
    requires 0 < n
  {
    match AcceptanceRegion(p, n, threshold)
    case None => None
    case Some(ends) => if ends.0 <= ends.1 then Some(1.0 - Mass(n, ends.0, ends.1 + 1, r)) else None
  }

  // ---------------------------------------------------------------- the mass is one

  lemma Recombine(c: real, f: real, a: real, b: real, u: real, v: real, r: real, q: real, l: real)
    requires c == a + b && f == r * q * l && u == r * l && v == q * l
    ensures c * f == r * (a * v) + q * (b * u)
  {
    assert r * (a * (q * l)) == a * (r * q * l);
    assert q * (b * (r * l)) == b * (r * q * l);
  }

  lemma LikelihoodUp(r: real, n: nat, x: nat)
    requires 0 < x <= n
    ensures
      var l := Pow(r, x - 1) * Pow(1.0 - r, n - x);
      && Likelihood(r, n, x - 1) == (1.0 - r) * l
      && Likelihood(r, n, x) == r * l
      && Likelihood(r, n + 1, x) == r * (1.0 - r) * l
  {
    var q := 1.0 - r;
    var a, b := Pow(r, x - 1), Pow(q, n - x);
    assert Pow(r, x) == r * a && Pow(q, n - x + 1) == q * b;
    assert Likelihood(r, n, x - 1) == a * Pow(q, n - x + 1);
    assert Likelihood(r, n, x) == Pow(r, x) * b;
    assert Likelihood(r, n + 1, x) == Pow(r, x) * Pow(q, n - x + 1);
    hide Pow, Likelihood;
    assert a * (q * b) == q * (a * b);
    assert (r * a) * b == r * (a * b);
    assert (r * a) * (q * b) == r * q * (a * b);
  }

  lemma LastPmf(n: nat, r: real)
    ensures Pmf(n + 1, n + 1, r) == r * Pmf(n, n, r)
  {
    CombFull(n + 1);
    CombFull(n);
    assert Pow(r, n + 1) == r * Pow(r, n);
    assert Pow(1.0 - r, 0) == 1.0;
    hide Pow, Comb;
  }

  lemma FirstPmf(n: nat, r: real)
    ensures Pmf(n + 1, 0, r) == (1.0 - r) * Pmf(n, 0, r)
  {
    assert Pow(1.0 - r, n + 1) == (1.0 - r) * Pow(1.0 - r, n);
    assert Pow(r, 0) == 1.0;
    hide Pow;
  }

  /** Pascal's rule for the mass function. */
  lemma PmfStep(n: nat, x: nat, r: real)
    requires 0 < x <= n + 1
    ensures Pmf(n + 1, x, r) == r * Pmf(n, x - 1, r) + (1.0 - r) * Pmf(n, x, r)
  {
    if x == n + 1 {
      LastPmf(n, r);
      assert Pmf(n, n + 1, r) == 0.0;
      hide Pmf;
    } else {
      InnerPmf(n, x, r);
    }
  }

  lemma InnerPmf(n: nat, x: nat, r: real)
    requires 0 < x <= n
    ensures Pmf(n + 1, x, r) == r * Pmf(n, x - 1, r) + (1.0 - r) * Pmf(n, x, r)
  {
    hide Comb, Likelihood, Pow;
    LikelihoodUp(r, n, x);
    PascalReal(n, x);
    Recombine(Comb(n + 1, x) as real, Likelihood(r, n + 1, x), Comb(n, x - 1) as real, Comb(n, x) as real,
              Likelihood(r, n, x), Likelihood(r, n, x - 1), r, 1.0 - r, Pow(r, x - 1) * Pow(1.0 - r, n - x));
  }

  lemma PascalReal(n: nat, x: nat)
    requires 0 < x
    ensures Comb(n + 1, x) as real == Comb(n, x - 1) as real + Comb(n, x) as real
  {
  }

  lemma Collect(r: real, q: real, a: real, b: real, c: real, d: real, whole: real, part: real)
    requires whole == r * a + q * b && part == r * c + q * d
    ensures whole + part == r * (a + c) + q * (b + d)
  {
  }

  lemma {:induction false} MassStep(n: nat, m: nat, r: real)
    requires m <= n + 1
    ensures Mass(n + 1, 0, m + 1, r) == r * Mass(n, 0, m, r) + (1.0 - r) * Mass(n, 0, m + 1, r)
  {
    hide Pmf;
    if m == 0 {
      FirstPmf(n, r);
      assert Mass(n, 0, 0, r) == 0.0;
    } else {
      MassStep(n, m - 1, r);
      PmfStep(n, m, r);
      Collect(r, 1.0 - r, Mass(n, 0, m - 1, r), Mass(n, 0, m, r), Pmf(n, m - 1, r), Pmf(n, m, r),
              Mass(n + 1, 0, m, r), Pmf(n + 1, m, r));
    }
  }

  /** The binomial probabilities add up to one. */
  lemma {:induction false} MassIsOne(n: nat, r: real)
    ensures Mass(n, 0, n + 1, r) == 1.0
  {
    if n == 0 {
      assert Mass(0, 0, 1, r) == Pmf(0, 0, r);
      assert Pow(r, 0) == 1.0 && Pow(1.0 - r, 0) == 1.0;
    } else {
      MassIsOne(n - 1, r);
      MassStep(n - 1, n, r);
      assert Mass(n - 1, 0, n + 1, r) == Mass(n - 1, 0, n, r) + Pmf(n - 1, n, r);
      assert Pmf(n - 1, n, r) == 0.0;
      hide Mass, Pmf;
    }
  }

  // ---------------------------------------------------------------- power

  lemma {:induction false} MassSplits(p: real, n: nat, m: nat, threshold: real, r: real, low: nat, high: nat)
    requires 0 < n && m <= n + 1 && low <= high <= n
    requires forall x :: 0 <= x <= n ==> (Accepted(p, n, x, threshold) <==> low <= x <= high)
    ensures
      var kept := if m <= low then 0.0 else Mass(n, low, if m <= high + 1 then m else high + 1, r);
      RejectedMass(p, n, m, threshold, r) + kept == Mass(n, 0, m, r)
  {
    hide Accepted, Pmf;
    if m > 0 {
      MassSplits(p, n, m - 1, threshold, r, low, high);
      assert Accepted(p, n, m - 1, threshold) <==> low <= m - 1 <= high;
    }
  }

  /** THE POWER IS THE REJECTION PROBABILITY: summing over the range between the two ends leaves out
      no accepted count and takes in no rejected one. */
  lemma PowerIsRejectionProbability(p: real, n: nat, threshold: real, r: real)
    requires 0.0 < p < 1.0 && 0 < n
    ensures Power(p, n, threshold, r).Some? <==> exists x :: 0 <= x <= n && Accepted(p, n, x, threshold)
    ensures Power(p, n, threshold, r).Some?
        ==> Power(p, n, threshold, r).value == RejectedMass(p, n, n + 1, threshold, r)
  {
    AcceptanceIsAnInterval(p, n, threshold);
    var region := AcceptanceRegion(p, n, threshold);
    hide Accepted, AcceptanceRegion;
    if region.Some? {
      var (low, high) := region.value;
      assert Accepted(p, n, low, threshold);
      MassSplits(p, n, n + 1, threshold, r, low, high);
      MassIsOne(n, r);
      hide Mass;
    }
  }

  // ---------------------------------------------------------------- the ratio and the threshold

  /** A count is accepted exactly when its ratio, which counts for no more than 1, reaches the threshold. */
  lemma AcceptedExactlyWhen(p: real, n: nat, x: nat, threshold: real)
    requires 0 < n && x <= n
    ensures Accepted(p, n, x, threshold) <==> threshold <= 1.0 && threshold <= Ratio(p, n, x)
  {
    hide Ratio;
  }

  /** The ratio in powers: p^x (1-p)^(n-x) n^n over x^x (n-x)^(n-x). */
  lemma RatioInPowers(p: real, n: nat, x: nat)
    requires 0 < n && x <= n
    ensures Times(Ratio(p, n, x), Times(Pow(x as real, x), Pow((n - x) as real, n - x)))
         == Times(Times(Pow(p, x), Pow(1.0 - p, n - x)), Pow(n as real, n))
  {
    FitIsSelf(n, x);
    RatioAt(p, n, x, Likelihood(p, n, x), Fit(n, x));
    assert Likelihood(p, n, x) == Times(Pow(p, x), Pow(1.0 - p, n - x));
    hide Ratio, Likelihood, Fit, Pow;
    Unfraction(Likelihood(p, n, x), Fit(n, x), Pow(n as real, n), Ratio(p, n, x), Times(Self(x), Self(n - x)));
  }

  lemma Unfraction(l: real, f: real, power: real, ratio: real, selves: real)
    requires f > 0.0 && ratio == l / f && Times(f, power) == selves
    ensures Times(ratio, selves) == Times(l, power)
  {
    assert ratio * f == l;
    assert ratio * (f * power) == (ratio * f) * power;
  }

  /** The observed rate itself is never rejected by a threshold of at most 1. */
  lemma ObservedRateIsAccepted(n: nat, x: nat, threshold: real)
    requires 0 < n && x <= n && threshold <= 1.0
    ensures Ratio(x as real / n as real, n, x) == 1.0 && Accepted(x as real / n as real, n, x, threshold)
  {
    var q := x as real / n as real;
    FitAt(n, x, q);
    hide Pow;
    assert Likelihood(q, n, x) == Fit(n, x);
    RatioAt(q, n, x, Likelihood(q, n, x), Fit(n, x));
    hide Ratio, Likelihood, Fit;
    Quotient(Likelihood(q, n, x), Fit(n, x), 1.0);
    AcceptedExactlyWhen(q, n, x, threshold);
  }
}
