/** Wilder's average and the RSI in closed form: what weight every change has. */
module WilderSums {
  import opened Trading
  import opened Reals
  import opened Binomial
  import opened Rsi

  /** The weight of element j, past the first `period`, in a series of N: p^(j-period+1) (p-1)^(N-1-j). */
  function Weight(period: nat, j: nat, N: nat): real
    requires 1 <= period <= j < N
  {
    Times(Pow(period as real, j - period + 1), Pow((period - 1) as real, N - 1 - j))
  }

  /** The weighted sum of the elements from `period` up to n, of a series of N. */
  function Later(xs: seq<real>, period: nat, N: nat, n: nat): real
    requires 1 <= period <= n <= |xs| && n <= N
  {
    if n == period then 0.0
    else Later(xs, period, N, n - 1) + Times(Weight(period, n - 1, N), xs[n - 1])
  }

  /** The first elements with weight (p-1)^m, m being the number of the others, and the others. */
  function Weighted(xs: seq<real>, period: nat): real
    requires 1 <= period <= |xs|
  {
    Times(Pow((period - 1) as real, |xs| - period), Sum(xs[..period])) + Later(xs, period, |xs|, |xs|)
  }

  lemma TimesAssociates(x: real, y: real, z: real)
    ensures Times(Times(x, y), z) == Times(x, Times(y, z))
  {
  }

  lemma TimesCommutes(x: real, y: real)
    ensures Times(x, y) == Times(y, x)
  {
  }

  lemma PowNext(b: real, e: nat)
    ensures Pow(b, 0) == 1.0 && Pow(b, e + 1) == Times(b, Pow(b, e)) && Times(1.0, b) == b
  {
  }

  lemma WeightOfNext(period: nat, j: nat, N: nat)
    requires 1 <= period <= j < N
    ensures Weight(period, j, N + 1) == Times((period - 1) as real, Weight(period, j, N))
  {
    var q, p, rest := (period - 1) as real, Pow(period as real, j - period + 1), Pow((period - 1) as real, N - 1 - j);
    PowNext(q, N - 1 - j);
    hide Pow, Times;
    TimesAssociates(p, q, rest);
    TimesCommutes(p, q);
    TimesAssociates(q, p, rest);
  }

  lemma {:induction false} LaterOfNext(xs: seq<real>, period: nat, N: nat, n: nat)
    requires 1 <= period <= n <= |xs| && n <= N
    ensures Later(xs, period, N + 1, n) == Times((period - 1) as real, Later(xs, period, N, n))
  {
    var q := (period - 1) as real;
    if n == period {
      assert Times(q, 0.0) == 0.0;
    } else {
      hide Weight, Times;
      LaterOfNext(xs, period, N, n - 1);
      WeightOfNext(period, n - 1, N);
      TimesAssociates(q, Weight(period, n - 1, N), xs[n - 1]);
      TimesAdds(q, Later(xs, period, N, n - 1), Times(Weight(period, n - 1, N), xs[n - 1]));
    }
  }

  lemma {:induction false} LaterOfPrefix(xs: seq<real>, period: nat, N: nat, n: nat, m: nat)
    requires 1 <= period <= n <= m <= |xs| && n <= N
    ensures Later(xs[..m], period, N, n) == Later(xs, period, N, n)
  {
    if n > period {
      hide Weight, Times;
      LaterOfPrefix(xs, period, N, n - 1, m);
    }
  }

  lemma LastWeight(period: nat, N: nat)
    requires 1 <= period < N
    ensures Weight(period, N - 1, N) == Pow(period as real, N - period)
  {
    PowNext((period - 1) as real, 0);
    PowNext(Pow(period as real, N - period), 0);
    TimesCommutes(1.0, Pow(period as real, N - period));
    hide Pow, Times;
  }

  lemma WeightedStep(xs: seq<real>, period: nat, before: seq<real>, last: real)
    requires 1 <= period <= |before| && xs == before + [last]
    ensures Weighted(xs, period)
         == Times((period - 1) as real, Weighted(before, period)) + Times(Pow(period as real, |xs| - period), last)
  {
    var n, q := |before|, (period - 1) as real;
    hide Pow, Times, Weight, Sum;
    assert xs[..n] == before && before[..period] == xs[..period];
    PowNext(q, n - period);
    LaterOfNext(xs, period, n, n);
    LaterOfPrefix(xs, period, n, n, n);
    LastWeight(period, n + 1);
    TimesAssociates(q, Pow(q, n - period), Sum(xs[..period]));
    TimesAdds(q, Times(Pow(q, n - period), Sum(xs[..period])), Later(xs, period, n, n));
  }

  /** One smoothing step, scaled up. */
  lemma SmoothedScaledUp(average: real, x: real, period: nat, power: real)
    requires period >= 1
    ensures Times(Times(period as real, power), Smoothed(average, x, period))
         == Times((period - 1) as real, Times(power, average)) + Times(power, x)
  {
    var p, q := period as real, (period - 1) as real;
    var s := average * q + x;
    assert p * (s / p) == s;
    TimesAssociates(power, p, s / p);
    TimesCommutes(power, p);
    assert Times(p, s / p) == s;
    TimesAdds(power, average * q, x);
    TimesAssociates(q, power, average);
    assert power * (average * q) == q * (power * average);
  }

  /** WILDER'S AVERAGE IN CLOSED FORM: p^(m+1) times it is the weighted sum of all elements. */
  lemma {:induction false} WilderIsWeighted(xs: seq<real>, period: nat)
    requires 1 <= period <= |xs|
    ensures Times(Pow(period as real, |xs| - period + 1), Wilder(xs, period)) == Weighted(xs, period)
    decreases |xs|
  {
    if |xs| == period {
      FirstAverage(xs, period);
    } else {
      var n := |xs| - 1;
      var before, power := xs[..n], Pow(period as real, n - period + 1);
      hide Pow, Weighted, Times, Smoothed;
      WilderIsWeighted(before, period);
      WeightedStep(xs, period, before, xs[n]);
      PowNext(period as real, n - period + 1);
      SmoothedScaledUp(Wilder(before, period), xs[n], period, power);
    }
  }

  lemma FirstAverage(xs: seq<real>, period: nat)
    requires 1 <= period == |xs|
    ensures Times(Pow(period as real, 1), Wilder(xs, period)) == Weighted(xs, period)
  {
    var p := period as real;
    assert xs[..period] == xs;
    PowNext(p, 0);
    PowNext((period - 1) as real, 0);
    hide Pow, Sum;
    assert p * (Sum(xs) / p) == Sum(xs);
    assert Times(p, 1.0) == p && Times(1.0, Sum(xs)) == Sum(xs);
  }

  // ---------------------------------------------------------------- two plain consequences

  lemma {:induction false} SumOfEqual(xs: seq<real>, v: real)
    requires forall i :: 0 <= i < |xs| ==> xs[i] == v
    ensures Sum(xs) == v * |xs| as real
  {
    if xs != [] {
      var n := |xs| - 1;
      SumOfEqual(xs[..n], v);
      assert v * |xs| as real == v * n as real + v by { assert |xs| as real == n as real + 1.0; }
    }
  }

  /** A series of equal values averages to that value. */
  lemma {:induction false} EqualValuesAverageToThemselves(xs: seq<real>, period: nat, v: real)
    requires 1 <= period <= |xs| && forall i :: 0 <= i < |xs| ==> xs[i] == v
    ensures Wilder(xs, period) == v
    decreases |xs|
  {
    hide Sum, Smoothed;
    if |xs| == period {
      SumOfEqual(xs, v);
      Quotient(Sum(xs), period as real, v);
    } else {
      EqualValuesAverageToThemselves(xs[..|xs| - 1], period, v);
      SmoothedOfEqual(v, period);
    }
  }

  lemma SmoothedOfEqual(v: real, period: nat)
    requires 1 <= period
    ensures Smoothed(v, v, period) == v
  {
    var p := period as real;
    assert (period - 1) as real == p - 1.0;
    assert v * (p - 1.0) + v == v * p;
    Quotient(v * (period - 1) as real + v, p, v);
  }

  /** Raising the last element by d raises the average by d over the period. */
  lemma LastElementCountsOncePerPeriod(xs: seq<real>, period: nat, last: real, d: real)
    requires 1 <= period <= |xs|
    ensures (Wilder(xs + [last + d], period) - Wilder(xs + [last], period)) * period as real == d
  {
    hide Wilder, Smoothed;
    NextAverage(xs, period, last + d);
    NextAverage(xs, period, last);
    SmoothedDifference(Wilder(xs, period), last + d, last, period);
  }

  lemma NextAverage(xs: seq<real>, period: nat, x: real)
    requires 1 <= period <= |xs|
    ensures Wilder(xs + [x], period) == Smoothed(Wilder(xs, period), x, period)
  {
    var longer := xs + [x];
    hide Sum, Smoothed;
    assert longer[..|xs|] == xs;
    assert Wilder(longer, period) == Smoothed(Wilder(longer[..|xs|], period), longer[|xs|], period);
  }

  lemma SmoothedDifference(average: real, x: real, y: real, period: nat)
    requires 1 <= period
    ensures (Smoothed(average, x, period) - Smoothed(average, y, period)) * period as real == x - y
  {
    var base := average * (period - 1) as real;
    Difference(base + x, base + y, period as real);
  }

  lemma Difference(x: real, y: real, p: real)
    requires p > 0.0
    ensures (x / p - y / p) * p == x - y
  {
    assert (x / p) * p == x && (y / p) * p == y;
  }

  // ---------------------------------------------------------------- the index

  lemma {:induction false} PowPositive(b: real, e: nat)
    requires b > 0.0
    ensures Pow(b, e) > 0.0
  {
    if e > 0 {
      PowPositive(b, e - 1);
      PositiveProduct(b, Pow(b, e - 1));
    }
  }

  /** THE RSI IN CLOSED FORM. With G and L the weighted sums of the gains and of the losses, it is 100
      times the share of G in G + L, or 100 if nothing moved. */
  lemma RsiIsTheWeightedShare(closes: seq<real>, period: nat)
    requires 1 <= period < |closes|
    ensures
      var g, l := Weighted(Gains(Changes(closes)), period), Weighted(Losses(Changes(closes)), period);
      && g >= 0.0 && l >= 0.0
      && (g + l == 0.0 ==> RsiSpec(closes, period) == Some(100.0))
      && (g + l > 0.0 ==>
            RsiSpec(closes, period).Some? && Times(RsiSpec(closes, period).value, g + l) == Times(100.0, g))
  {
    var changes := Changes(closes);
    hide Pow, Weighted, Wilder, Gains, Losses, Changes, AllZero, RsiSpec, Index, Times;
    RsiIsTheIndexOfTheAverages(closes, period);
    WilderIsWeighted(Gains(changes), period);
    WilderIsWeighted(Losses(changes), period);
    PowPositive(period as real, |changes| - period + 1);
    ShareScales(Wilder(Gains(changes), period), Wilder(Losses(changes), period),
                Pow(period as real, |changes| - period + 1),
                Weighted(Gains(changes), period), Weighted(Losses(changes), period));
  }

  lemma RsiIsTheIndexOfTheAverages(closes: seq<real>, period: nat)
    requires 1 <= period < |closes|
    ensures
      var gain, loss := Wilder(Gains(Changes(closes)), period), Wilder(Losses(Changes(closes)), period);
      gain >= 0.0 && loss >= 0.0 && RsiSpec(closes, period) == Some(Index(gain, loss))
  {
    hide Wilder, Index, AllZero;
    AveragesAreNonNegative(Changes(closes), period);
  }

  lemma ShareScales(gain: real, loss: real, c: real, g: real, l: real)
    requires gain >= 0.0 && loss >= 0.0 && c > 0.0 && g == Times(c, gain) && l == Times(c, loss)
    ensures g >= 0.0 && l >= 0.0
    ensures g + l == 0.0 ==> Index(gain, loss) == 100.0
    ensures g + l > 0.0 ==> Times(Index(gain, loss), g + l) == Times(100.0, g)
  {
    ProductSign(gain, c);
    ProductSign(loss, c);
    TimesCommutes(c, gain);
    TimesCommutes(c, loss);
    if gain + loss > 0.0 {
      IndexAsShare(gain, loss);
      TimesAdds(c, gain, loss);
      hide Index;
      var share := gain / (gain + loss);
      assert share * (gain + loss) == gain;
      Whole(share, gain + loss, c, gain, g + l, g);
    }
  }

  lemma Whole(share: real, whole: real, c: real, part: real, cWhole: real, cPart: real)
    requires share * whole == part && cWhole == c * whole && cPart == c * part
    ensures (100.0 * share) * cWhole == 100.0 * cPart
  {
    assert share * (c * whole) == c * (share * whole);
  }
}
