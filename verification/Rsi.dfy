/** The Relative Strength Index with Wilder's smoothing, over exact reals. */
module Rsi {
  import opened Trading
  import opened Reals

  function Gain(change: real): real {
    if change > 0.0 then change else 0.0
  }

  function Loss(change: real): real {
    if change > 0.0 then 0.0 else -change
  }

  function Changes(closes: seq<real>): (r: seq<real>)
    requires closes != []
    ensures |r| == |closes| - 1 && forall i :: 0 <= i < |r| ==> r[i] == closes[i + 1] - closes[i]
  {
    seq(|closes| - 1, i requires 0 <= i < |closes| - 1 => closes[i + 1] - closes[i])
  }

  function Gains(changes: seq<real>): (r: seq<real>)
    ensures |r| == |changes| && forall i :: 0 <= i < |r| ==> r[i] == Gain(changes[i])
  {
    seq(|changes|, i requires 0 <= i < |changes| => Gain(changes[i]))
  }

  function Losses(changes: seq<real>): (r: seq<real>)
    ensures |r| == |changes| && forall i :: 0 <= i < |r| ==> r[i] == Loss(changes[i])
  {
    seq(|changes|, i requires 0 <= i < |changes| => Loss(changes[i]))
  }

  function Smoothed(average: real, x: real, period: nat): real
    requires period >= 1
  {
    (average * (period - 1) as real + x) / period as real
  }

  /** The mean of the first `period` elements, then one smoothing step per later element. */
  function Wilder(xs: seq<real>, period: nat): real
    requires 1 <= period <= |xs|
    decreases |xs|
  {
    if |xs| == period then Sum(xs) / period as real
    else Smoothed(Wilder(xs[..|xs| - 1], period), xs[|xs| - 1], period)
  }

  function Index(gain: real, loss: real): real
    requires gain >= 0.0 && loss >= 0.0
  {
    if loss == 0.0 then 100.0
    else
      StrengthIsNonNegative(gain, loss);
      100.0 - 100.0 / (1.0 + gain / loss)
  }

  lemma StrengthIsNonNegative(gain: real, loss: real)
    requires gain >= 0.0 && loss > 0.0
    ensures gain / loss >= 0.0
  {
  }

  function RsiOf(changes: seq<real>, period: nat): real
    requires 1 <= period <= |changes|
  {
    AveragesAreNonNegative(changes, period);
    Index(Wilder(Gains(changes), period), Wilder(Losses(changes), period))
  }

  function RsiSpec(closes: seq<real>, period: nat): Option<real>
    requires period >= 1
  {
    if |closes| < period + 1 then None else Some(RsiOf(Changes(closes), period))
  }

  method Rsi(closes: seq<real>, period: nat) returns (r: Option<real>)
    requires period >= 1
    ensures r == RsiSpec(closes, period)
  {
    if |closes| < period + 1 {
      return None;
    }
    var gains, losses := SplitChanges(closes);
    var avgGain := Average(gains, period);
    var avgLoss := Average(losses, period);
    AveragesAreNonNegative(Changes(closes), period);
    r := Some(Index(avgGain, avgLoss));
  }

  method SplitChanges(closes: seq<real>) returns (gains: seq<real>, losses: seq<real>)
    requires closes != []
    ensures gains == Gains(Changes(closes)) && losses == Losses(Changes(closes))
  {
    ghost var changes := Changes(closes);
    gains, losses := [], [];
    for i := 1 to |closes|
      invariant gains == Gains(changes[..i - 1]) && losses == Losses(changes[..i - 1])
    {
      var change := closes[i] - closes[i - 1];
      NextChange(changes, i - 1, i);
      if change > 0.0 {
        gains := gains + [change];
        losses := losses + [0.0];
      } else {
        gains := gains + [0.0];
        losses := losses + [-change];
      }
    }
    assert changes[..|changes|] == changes;
  }

  lemma NextChange(changes: seq<real>, k: nat, next: nat)
    requires k < |changes| && next == k + 1
    ensures Gains(changes[..next]) == Gains(changes[..k]) + [Gain(changes[k])]
    ensures Losses(changes[..next]) == Losses(changes[..k]) + [Loss(changes[k])]
  {
  }

  method Average(xs: seq<real>, period: nat) returns (average: real)
    requires 1 <= period <= |xs|
    ensures average == Wilder(xs, period)
  {
    average := Sum(xs[..period]) / period as real;
    for i := period to |xs|
      invariant average == Wilder(xs[..i], period)
    {
      hide Smoothed, Sum;
      assert xs[..i + 1][..i] == xs[..i];
      average := Smoothed(average, xs[i], period);
    }
    assert xs[..|xs|] == xs;
  }

  // ---------------------------------------------------------------- when an average is zero

  lemma {:induction false} SumOfNonNegatives(xs: seq<real>)
    requires forall i :: 0 <= i < |xs| ==> xs[i] >= 0.0
    ensures Sum(xs) >= 0.0
    ensures Sum(xs) == 0.0 <==> forall i :: 0 <= i < |xs| ==> xs[i] == 0.0
  {
    if xs != [] {
      var n := |xs| - 1;
      SumOfNonNegatives(xs[..n]);
      assert forall i :: 0 <= i < n ==> xs[..n][i] == xs[i];
    }
  }

  lemma QuotientSign(x: real, n: real)
    requires x >= 0.0 && n > 0.0
    ensures x / n >= 0.0
    ensures x / n == 0.0 <==> x == 0.0
  {
    var q := x / n;
    assert q * n == x;
  }

  lemma ProductSign(x: real, n: real)
    requires x >= 0.0 && n >= 0.0
    ensures x * n >= 0.0
    ensures n > 0.0 ==> (x * n == 0.0 <==> x == 0.0)
  {
  }

  lemma SmoothedSign(average: real, x: real, period: nat)
    requires average >= 0.0 && x >= 0.0 && period >= 1
    ensures Smoothed(average, x, period) >= 0.0
    ensures period >= 2 ==> (Smoothed(average, x, period) == 0.0 <==> average == 0.0 && x == 0.0)
    ensures period == 1 ==> Smoothed(average, x, period) == x
  {
    ProductSign(average, (period - 1) as real);
    QuotientSign(average * (period - 1) as real + x, period as real);
  }

  /** Which elements an average of zero rules out: all of them, but for period 1 the last alone. */
  predicate AllZero(xs: seq<real>, period: nat) {
    if period == 1 then xs == [] || xs[|xs| - 1] == 0.0
    else forall i :: 0 <= i < |xs| ==> xs[i] == 0.0
  }

  lemma {:induction false} WilderIsZeroExactlyWhen(xs: seq<real>, period: nat)
    requires 1 <= period <= |xs| && forall i :: 0 <= i < |xs| ==> xs[i] >= 0.0
    ensures Wilder(xs, period) >= 0.0
    ensures Wilder(xs, period) == 0.0 <==> AllZero(xs, period)
    decreases |xs|
  {
    var n := |xs| - 1;
    if |xs| == period {
      SumOfNonNegatives(xs);
      QuotientSign(Sum(xs), period as real);
      if period == 1 {
        assert Sum(xs[..0]) == 0.0;
      }
    } else {
      WilderIsZeroExactlyWhen(xs[..n], period);
      SmoothedSign(Wilder(xs[..n], period), xs[n], period);
      assert forall i :: 0 <= i < n ==> xs[..n][i] == xs[i];
    }
  }

  lemma AveragesAreNonNegative(changes: seq<real>, period: nat)
    requires 1 <= period <= |changes|
    ensures Wilder(Gains(changes), period) >= 0.0 && Wilder(Losses(changes), period) >= 0.0
    ensures Wilder(Gains(changes), period) == 0.0 <==> AllZero(Gains(changes), period)
    ensures Wilder(Losses(changes), period) == 0.0 <==> AllZero(Losses(changes), period)
  {
    WilderIsZeroExactlyWhen(Gains(changes), period);
    WilderIsZeroExactlyWhen(Losses(changes), period);
  }

  // ---------------------------------------------------------------- the index

  lemma IndexAsShare(gain: real, loss: real)
    requires gain >= 0.0 && loss >= 0.0 && gain + loss > 0.0
    ensures Index(gain, loss) == 100.0 * (gain / (gain + loss))
    ensures 0.0 <= Index(gain, loss) <= 100.0
    ensures Index(gain, loss) == 100.0 <==> loss == 0.0
  {
    if loss != 0.0 {
      var rs, share := gain / loss, gain / (gain + loss);
      assert rs * loss == gain && share * (gain + loss) == gain;
      ShareOfWhole(gain, loss, rs, share);
    }
  }

  lemma ShareOfWhole(gain: real, loss: real, rs: real, share: real)
    requires gain >= 0.0 && loss > 0.0 && rs >= 0.0 && rs * loss == gain && share * (gain + loss) == gain
    ensures 100.0 - 100.0 / (1.0 + rs) == 100.0 * share && 0.0 <= share < 1.0
  {
    RestTimesGrowth(1.0 - share, 1.0 + rs, loss, gain + loss);
    Quotient(100.0, 1.0 + rs, 100.0 * (1.0 - share));
    ShareBelowOne(gain, gain + loss, share);
  }

  lemma RestTimesGrowth(rest: real, growth: real, loss: real, whole: real)
    requires loss > 0.0 && growth * loss == whole && rest * whole == loss
    ensures rest * growth == 1.0
  {
    Reassociate(rest, growth, loss, whole, rest * growth);
    Cancel(rest * growth, loss, loss);
  }

  lemma Reassociate(x: real, y: real, z: real, yz: real, xy: real)
    requires y * z == yz && xy == x * y
    ensures xy * z == x * yz
  {
  }

  lemma Cancel(x: real, y: real, xy: real)
    requires y > 0.0 && xy == y && x * y == xy
    ensures x == 1.0
  {
    assert (x - 1.0) * y == 0.0;
  }

  lemma ShareBelowOne(gain: real, whole: real, share: real)
    requires 0.0 <= gain < whole && share * whole == gain
    ensures 0.0 <= share < 1.0
  {
    if share < 0.0 {
      PositiveProduct(-share, whole);
    }
    if share > 1.0 {
      PositiveProduct(share - 1.0, whole);
    }
  }

  // ---------------------------------------------------------------- the index of a history

  /** No change that an average can still see is a loss: for period 1 that is the last change alone. */
  predicate NoLossSeen(closes: seq<real>, period: nat)
    requires |closes| >= 2
  {
    var changes := Changes(closes);
    if period == 1 then changes[|changes| - 1] >= 0.0
    else forall i :: 0 <= i < |changes| ==> changes[i] >= 0.0
  }

  lemma NoLossMeansZeroLosses(closes: seq<real>, period: nat)
    requires 1 <= period < |closes|
    ensures NoLossSeen(closes, period) <==> AllZero(Losses(Changes(closes)), period)
  {
    var changes := Changes(closes);
    hide Changes;
    assert forall i :: 0 <= i < |changes| ==> (Losses(changes)[i] == 0.0 <==> changes[i] >= 0.0);
  }

  /** The index lies in 0..100, and reads 100 exactly when no change it can see is a loss. */
  lemma RsiIsHundredExactlyWithoutLosses(closes: seq<real>, period: nat)
    requires period >= 1
    ensures RsiSpec(closes, period) == None <==> |closes| <= period
    ensures |closes| > period ==> 0.0 <= RsiSpec(closes, period).value <= 100.0
    ensures |closes| > period ==> (RsiSpec(closes, period).value == 100.0 <==> NoLossSeen(closes, period))
  {
    if |closes| > period {
      NoLossMeansZeroLosses(closes, period);
      var changes := Changes(closes);
      AveragesAreNonNegative(changes, period);
      var gain, loss := Wilder(Gains(changes), period), Wilder(Losses(changes), period);
      if gain + loss > 0.0 {
        IndexAsShare(gain, loss);
      }
    }
  }

  /** The code's remark on a zero average loss speaks of the window. A loss before the last
      `period` changes still counts: here the last two changes are gains and the index is 75. */
  lemma OldLossIsRemembered()
    ensures
      var closes := [3.0, 2.0, 3.0, 4.0];
      && (forall i :: 2 <= i < 4 ==> closes[i] > closes[i - 1])
      && RsiSpec(closes, 2) == Some(75.0)
  {
    var closes := [3.0, 2.0, 3.0, 4.0];
    var changes := Changes(closes);
    assert changes == [-1.0, 1.0, 1.0];
    assert Gains(changes) == [0.0, 1.0, 1.0] && Losses(changes) == [1.0, 0.0, 0.0];
    TwoThenOne(0.0, 1.0, 1.0);
    TwoThenOne(1.0, 0.0, 0.0);
    hide Wilder, Gains, Losses, Changes;
  }

  lemma TwoThenOne(x: real, y: real, z: real)
    ensures Wilder([x, y, z], 2) == ((x + y) / 2.0 + z) / 2.0
  {
    assert [x, y, z][..2] == [x, y] && [x, y][..1] == [x] && [x][..0] == [];
    assert Sum([x]) == x && Sum([x, y]) == x + y;
    assert Wilder([x, y], 2) == (x + y) / 2.0;
  }

  function Mirror(closes: seq<real>, top: real): (r: seq<real>)
    ensures |r| == |closes| && forall i :: 0 <= i < |r| ==> r[i] == top - closes[i]
  {
    seq(|closes|, i requires 0 <= i < |closes| => top - closes[i])
  }

  /** Every change that an average can still see is flat. */
  predicate FlatSeen(closes: seq<real>, period: nat)
    requires |closes| >= 2
  {
    var changes := Changes(closes);
    if period == 1 then changes[|changes| - 1] == 0.0
    else forall i :: 0 <= i < |changes| ==> changes[i] == 0.0
  }

  lemma MirrorSwapsGainsAndLosses(closes: seq<real>, top: real)
    requires closes != []
    ensures Gains(Changes(Mirror(closes, top))) == Losses(Changes(closes))
    ensures Losses(Changes(Mirror(closes, top))) == Gains(Changes(closes))
  {
  }

  lemma FlatMeansNoMovement(closes: seq<real>, period: nat)
    requires 1 <= period < |closes|
    ensures FlatSeen(closes, period) <==>
            AllZero(Gains(Changes(closes)), period) && AllZero(Losses(Changes(closes)), period)
  {
    var changes := Changes(closes);
    hide Changes;
    assert forall i :: 0 <= i < |changes| ==>
             (Gains(changes)[i] == 0.0 && Losses(changes)[i] == 0.0 <==> changes[i] == 0.0);
  }

  lemma SharesAddUp(gain: real, loss: real)
    requires gain + loss > 0.0
    ensures 100.0 * (gain / (gain + loss)) + 100.0 * (loss / (loss + gain)) == 100.0
  {
    var whole := gain + loss;
    QuotientBack(gain, whole);
    QuotientBack(loss, whole);
    hide *;
    SumOfShares(gain / whole, loss / whole, gain, loss, whole);
  }

  lemma QuotientBack(x: real, y: real)
    requires y > 0.0
    ensures (x / y) * y == x
  {
  }

  lemma SumOfShares(x: real, y: real, gain: real, loss: real, whole: real)
    requires whole > 0.0 && x * whole == gain && y * whole == loss && gain + loss == whole
    ensures x + y == 1.0
  {
    Distribute(x, y, whole, x + y, gain, loss);
    Cancel(x + y, whole, whole);
  }

  lemma Distribute(x: real, y: real, z: real, sum: real, xz: real, yz: real)
    requires sum == x + y && xz == x * z && yz == y * z
    ensures sum * z == xz + yz
  {
  }

  /** Turning a history upside down turns the index into its complement, exactly when something the
      averages can see moved; otherwise both read 100. */
  lemma MirroredHistoriesAddToHundred(closes: seq<real>, top: real, period: nat)
    requires 1 <= period < |closes|
    ensures RsiSpec(closes, period).value + RsiSpec(Mirror(closes, top), period).value
            == if FlatSeen(closes, period) then 200.0 else 100.0
  {
    MirrorSwapsGainsAndLosses(closes, top);
    FlatMeansNoMovement(closes, period);
    var changes := Changes(closes);
    AveragesAreNonNegative(changes, period);
    var gain, loss := Wilder(Gains(changes), period), Wilder(Losses(changes), period);
    hide Changes, Gains, Losses, Wilder, FlatSeen, AllZero;
    if gain + loss > 0.0 {
      IndexAsShare(gain, loss);
      IndexAsShare(loss, gain);
      SharesAddUp(gain, loss);
    }
  }

  // ---------------------------------------------------------------- scale

  function Scaled(xs: seq<real>, c: real): (r: seq<real>)
    ensures |r| == |xs| && forall i :: 0 <= i < |r| ==> r[i] == Times(c, xs[i])
  {
    seq(|xs|, i requires 0 <= i < |xs| => Times(c, xs[i]))
  }

  lemma TimesAdds(c: real, x: real, y: real)
    ensures Times(c, x) + Times(c, y) == Times(c, x + y)
    ensures Times(c, x) - Times(c, y) == Times(c, x - y)
  {
  }

  lemma {:induction false} SumScaled(xs: seq<real>, c: real)
    ensures Sum(Scaled(xs, c)) == Times(c, Sum(xs))
  {
    if xs != [] {
      hide Times;
      var n := |xs| - 1;
      SumScaled(xs[..n], c);
      assert Scaled(xs, c)[..n] == Scaled(xs[..n], c);
      TimesAdds(c, Sum(xs[..n]), xs[n]);
    }
  }

  lemma ScaledQuotient(c: real, x: real, y: real)
    requires y > 0.0
    ensures Times(c, x) / y == Times(c, x / y)
  {
    var q := x / y;
    assert q * y == x;
    assert (c * q) * y == c * (q * y);
    Quotient(Times(c, x), y, Times(c, q));
  }

  lemma SmoothedScaled(average: real, x: real, period: nat, c: real)
    requires period >= 1
    ensures Smoothed(Times(c, average), Times(c, x), period) == Times(c, Smoothed(average, x, period))
  {
    var n := (period - 1) as real;
    assert Times(c, average) * n == Times(c, average * n);
    TimesAdds(c, average * n, x);
    hide Times;
    ScaledQuotient(c, average * n + x, period as real);
  }

  lemma {:induction false} WilderScaled(xs: seq<real>, period: nat, c: real)
    requires 1 <= period <= |xs|
    ensures Wilder(Scaled(xs, c), period) == Times(c, Wilder(xs, period))
    decreases |xs|
  {
    if |xs| == period {
      SumScaled(xs, c);
      hide Sum, Scaled, Times;
      ScaledQuotient(c, Sum(xs), period as real);
    } else {
      hide Smoothed, Times;
      var n := |xs| - 1;
      WilderScaled(xs[..n], period, c);
      assert Scaled(xs, c)[..n] == Scaled(xs[..n], c);
      SmoothedScaled(Wilder(xs[..n], period), xs[n], period, c);
    }
  }

  lemma ChangesScaled(closes: seq<real>, c: real)
    requires closes != []
    ensures Changes(Scaled(closes, c)) == Scaled(Changes(closes), c)
  {
    forall i | 0 <= i < |closes| - 1 ensures Changes(Scaled(closes, c))[i] == Scaled(Changes(closes), c)[i] {
      TimesAdds(c, closes[i + 1], closes[i]);
    }
  }

  lemma MovementsScaled(changes: seq<real>, c: real)
    requires c > 0.0
    ensures Gains(Scaled(changes, c)) == Scaled(Gains(changes), c)
    ensures Losses(Scaled(changes, c)) == Scaled(Losses(changes), c)
  {
    hide Gain, Loss, Times;
    forall i | 0 <= i < |changes|
      ensures Gain(Times(c, changes[i])) == Times(c, Gain(changes[i]))
      ensures Loss(Times(c, changes[i])) == Times(c, Loss(changes[i]))
    {
      ChangeScaled(changes[i], c);
    }
  }

  lemma ChangeScaled(change: real, c: real)
    requires c > 0.0
    ensures Gain(Times(c, change)) == Times(c, Gain(change))
    ensures Loss(Times(c, change)) == Times(c, Loss(change))
  {
  }

  lemma IndexScaled(gain: real, loss: real, c: real)
    requires gain >= 0.0 && loss >= 0.0 && c > 0.0
    ensures Times(c, gain) >= 0.0 && Times(c, loss) >= 0.0
    ensures Index(Times(c, gain), Times(c, loss)) == Index(gain, loss)
  {
    ProductSign(gain, c);
    ProductSign(loss, c);
    if loss > 0.0 {
      var rs := gain / loss;
      assert rs * loss == gain;
      Quotient(Times(c, gain), Times(c, loss), rs) by {
        assert rs * (c * loss) == c * (rs * loss);
      }
    }
  }

  /** Quoting every price in another unit changes nothing. */
  lemma RsiIsScaleFree(closes: seq<real>, period: nat, c: real)
    requires period >= 1 && c > 0.0
    ensures RsiSpec(Scaled(closes, c), period) == RsiSpec(closes, period)
  {
    if |closes| > period {
      var changes := Changes(closes);
      ChangesScaled(closes, c);
      MovementsScaled(changes, c);
      AveragesAreNonNegative(changes, period);
      WilderScaled(Gains(changes), period, c);
      WilderScaled(Losses(changes), period, c);
      hide Changes, Gains, Losses, Wilder, Index, Times, AllZero;
      IndexScaled(Wilder(Gains(changes), period), Wilder(Losses(changes), period), c);
    }
  }
}
