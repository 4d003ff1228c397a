/** CVaR against the losses themselves: the mean of the tail, and VaR plus the mean excess over it. */
module TailMean {
  import opened Trading
  import opened Reals
  import opened OrderStatistics

  lemma {:induction false} FrontSumIsSum(xs: seq<real>)
    ensures SumOf(xs) == Sum(xs)
  {
    if xs == [] {
      SumOfOne(0.0);
    } else {
      FrontSumIsSum(xs[1..]);
      SumOfOne(xs[0]);
      SumConcat([xs[0]], xs[1..]);
      assert xs == [xs[0]] + xs[1..];
    }
  }

  /** VaR, CVaR and the labelled tail exist under the same condition on the returns, and k times CVaR
      is the sum of the losses in that tail, whatever the labels. */
  lemma CvarIsTheMeanOfTheTail<T>(moves: seq<real>, labels: seq<T>, confidence: real, window: nat)
    requires 1 <= window && 0.0 <= confidence && |labels| == |moves|
    ensures HistoricalCvar(moves, confidence, window).None? <==> |moves| < window
    ensures HistoricalVar(moves, confidence, window).None? <==> |moves| < window
    ensures TailLosses(moves, labels, confidence, window).None? <==> |moves| < window
    ensures |moves| >= window ==>
              TailCount(window, confidence) as real * HistoricalCvar(moves, confidence, window).value
              == Sum(LossesOf(TailLosses(moves, labels, confidence, window).value))
  {
    if |moves| >= window {
      TailIsTheVarTail(moves, labels, confidence, window);
      CvarTimesCount(moves, confidence, window);
      hide HistoricalCvar, HistoricalVar, TailLosses, TailCount, SortDesc, LossesOf;
    }
  }

  lemma CvarTimesCount(moves: seq<real>, confidence: real, window: nat)
    requires 1 <= window <= |moves| && 0.0 <= confidence
    ensures
      var k := TailCount(window, confidence);
      && k <= window && |SortDesc(Negated(Window(moves, window)))| == window
      && HistoricalCvar(moves, confidence, window).Some?
      && k as real * HistoricalCvar(moves, confidence, window).value
         == Sum(SortDesc(Negated(Window(moves, window)))[..k])
  {
    hide SortDesc, TailCount, SumOf;
    TailFitsWindow(window, confidence);
    var k := TailCount(window, confidence);
    var tail := SortDesc(Negated(Window(moves, window)))[..k];
    assert HistoricalCvar(moves, confidence, window) == Some(SumOf(tail) / k as real);
    hide HistoricalCvar;
    FrontSumIsSum(tail);
    ShareTimesCount(SumOf(tail), k as real);
  }

  lemma ShareTimesCount(total: real, n: real)
    requires n > 0.0
    ensures n * (total / n) == total
  {
  }

  // ---------------------------------------------------------------- the excess over VaR

  function Above(x: real, v: real): real {
    if x > v then x - v else 0.0
  }

  /** What each loss exceeds v by, or zero. */
  function Excess(losses: seq<real>, v: real): (r: seq<real>)
    ensures |r| == |losses| && forall i :: 0 <= i < |r| ==> r[i] == Above(losses[i], v)
  {
    seq(|losses|, i requires 0 <= i < |losses| => Above(losses[i], v))
  }

  lemma ExcessConcat(a: seq<real>, b: seq<real>, v: real)
    ensures Excess(a + b, v) == Excess(a, v) + Excess(b, v)
    ensures Sum(Excess(a + b, v)) == Sum(Excess(a, v)) + Sum(Excess(b, v))
  {
    SumConcat(Excess(a, v), Excess(b, v));
  }

  lemma {:induction false} InsertKeepsExcess(x: real, xs: seq<real>, v: real)
    ensures Sum(Excess(InsertDesc(x, xs), v)) == Sum(Excess([x] + xs, v))
  {
    if xs != [] && x < xs[0] {
      InsertKeepsExcess(x, xs[1..], v);
      hide Excess, Sum;
      var head, rest := [xs[0]], xs[1..];
      assert InsertDesc(x, xs) == head + InsertDesc(x, rest);
      assert [x] + xs == [x] + head + rest;
      ExcessConcat(head, InsertDesc(x, rest), v);
      ExcessConcat([x], rest, v);
      ExcessConcat([x] + head, rest, v);
      ExcessConcat([x], head, v);
    }
  }

  lemma {:induction false} SortKeepsExcess(xs: seq<real>, v: real)
    ensures Sum(Excess(SortDesc(xs), v)) == Sum(Excess(xs, v))
  {
    if xs != [] {
      SortKeepsExcess(xs[1..], v);
      InsertKeepsExcess(xs[0], SortDesc(xs[1..]), v);
      hide Excess, Sum, InsertDesc;
      assert [xs[0]] + xs[1..] == xs;
      ExcessConcat([xs[0]], xs[1..], v);
      ExcessConcat([xs[0]], SortDesc(xs[1..]), v);
    }
  }

  lemma {:induction false} ExcessOfLarger(xs: seq<real>, v: real)
    requires forall i :: 0 <= i < |xs| ==> xs[i] >= v
    ensures Sum(Excess(xs, v)) == Sum(xs) - |xs| as real * v
  {
    if xs != [] {
      var n := |xs| - 1;
      ExcessOfLarger(xs[..n], v);
      assert Excess(xs, v)[..n] == Excess(xs[..n], v);
      assert |xs| as real == n as real + 1.0;
      assert |xs| as real * v == n as real * v + v;
    }
  }

  lemma {:induction false} ExcessOfSmaller(xs: seq<real>, v: real)
    requires forall i :: 0 <= i < |xs| ==> xs[i] <= v
    ensures Sum(Excess(xs, v)) == 0.0
  {
    if xs != [] {
      var n := |xs| - 1;
      ExcessOfSmaller(xs[..n], v);
      assert Excess(xs, v)[..n] == Excess(xs[..n], v);
    }
  }

  /** CVaR is VaR plus the excess of the window's losses over VaR, spread over the tail: the k losses
      of the tail are the only ones that exceed it. */
  lemma CvarIsVarPlusMeanExcess(moves: seq<real>, confidence: real, window: nat)
    requires 1 <= window <= |moves| && 0.0 <= confidence
    ensures
      var value := HistoricalVar(moves, confidence, window).value;
      var tailMean := HistoricalCvar(moves, confidence, window).value;
      TailCount(window, confidence) as real * (tailMean - value)
      == Sum(Excess(Negated(moves[|moves| - window..]), value))
  {
    hide HistoricalVar, HistoricalCvar, SortDesc, TailCount, Excess, Sum, SumOf, Negated, Descending;
    var losses, k := Negated(Window(moves, window)), TailCount(window, confidence);
    var sorted := SortDesc(losses);
    VarAtCount(moves, confidence, window);
    CvarTimesCount(moves, confidence, window);
    SortDescSorts(losses);
    var v, c := HistoricalVar(moves, confidence, window).value, HistoricalCvar(moves, confidence, window).value;
    SortKeepsExcess(losses, v);
    SortedExcess(sorted, k, v);
    Gap(k as real, c, v);
  }

  lemma VarAtCount(moves: seq<real>, confidence: real, window: nat)
    requires 1 <= window <= |moves| && 0.0 <= confidence
    ensures
      var k, sorted := TailCount(window, confidence), SortDesc(Negated(Window(moves, window)));
      1 <= k <= |sorted| && HistoricalVar(moves, confidence, window) == Some(sorted[k - 1])
  {
    TailFitsWindow(window, confidence);
    hide TailCount, SortDesc;
  }

  lemma Gap(k: real, c: real, v: real)
    ensures k * (c - v) == k * c - k * v
  {
  }

  lemma SortedExcess(sorted: seq<real>, k: nat, v: real)
    requires Descending(sorted) && 1 <= k <= |sorted| && v == sorted[k - 1]
    ensures Sum(Excess(sorted, v)) == Sum(sorted[..k]) - k as real * v
  {
    hide Excess, Sum;
    assert sorted == sorted[..k] + sorted[k..];
    ExcessConcat(sorted[..k], sorted[k..], v);
    ExcessOfLarger(sorted[..k], v);
    ExcessOfSmaller(sorted[k..], v);
  }

  /** Only the last `window` returns count. */
  lemma OlderMovesDoNotMatter(older: seq<real>, recent: seq<real>, confidence: real)
    requires recent != [] && 0.0 <= confidence
    ensures HistoricalVar(older + recent, confidence, |recent|) == HistoricalVar(recent, confidence, |recent|)
    ensures HistoricalCvar(older + recent, confidence, |recent|) == HistoricalCvar(recent, confidence, |recent|)
  {
    hide SortDesc, TailCount, SumOf;
    assert (older + recent)[|older|..] == recent;
  }
}
