/** Historical VaR, CVaR and the tail behind them, over exact reals. */
module OrderStatistics {
  import opened Trading
  import opened RiskGate

  // ---------------------------------------------------------------- sorting

  predicate Descending(xs: seq<real>) {
    forall i, j :: 0 <= i < j < |xs| ==> xs[i] >= xs[j]
  }

  function InsertDesc(x: real, xs: seq<real>): seq<real> {
    if xs == [] || xs[0] <= x then [x] + xs else [xs[0]] + InsertDesc(x, xs[1..])
  }

  function SortDesc(xs: seq<real>): (s: seq<real>)
    ensures |s| == |xs|
  {
    if xs == [] then []
    else
      InsertLength(xs[0], SortDesc(xs[1..]));
      InsertDesc(xs[0], SortDesc(xs[1..]))
  }

  lemma {:induction false} InsertLength(x: real, xs: seq<real>)
    ensures |InsertDesc(x, xs)| == |xs| + 1
  {
    if xs != [] && xs[0] > x {
      InsertLength(x, xs[1..]);
    }
  }

  lemma {:induction false} InsertBounded(x: real, xs: seq<real>, bound: real)
    requires x <= bound && forall i :: 0 <= i < |xs| ==> xs[i] <= bound
    ensures forall i :: 0 <= i < |InsertDesc(x, xs)| ==> InsertDesc(x, xs)[i] <= bound
  {
    if xs != [] && xs[0] > x {
      InsertBounded(x, xs[1..], bound);
    }
  }

  lemma {:induction false} InsertKeepsDescending(x: real, xs: seq<real>)
    requires Descending(xs)
    ensures Descending(InsertDesc(x, xs))
  {
    if xs != [] && xs[0] > x {
      InsertKeepsDescending(x, xs[1..]);
      InsertBounded(x, xs[1..], xs[0]);
    }
  }

  lemma {:induction false} SortDescSorts(xs: seq<real>)
    ensures Descending(SortDesc(xs))
  {
    if xs != [] {
      SortDescSorts(xs[1..]);
      InsertKeepsDescending(xs[0], SortDesc(xs[1..]));
    }
  }

  // ---------------------------------------------------------------- counting

  function Count(xs: seq<real>, p: real -> bool): nat {
    if xs == [] then 0 else (if p(xs[0]) then 1 else 0) + Count(xs[1..], p)
  }

  lemma {:induction false} CountConcat(a: seq<real>, b: seq<real>, p: real -> bool)
    ensures Count(a + b, p) == Count(a, p) + Count(b, p)
  {
    if a == [] {
      assert a + b == b;
    } else {
      assert (a + b)[1..] == a[1..] + b;
      CountConcat(a[1..], b, p);
    }
  }

  lemma {:induction false} CountRange(xs: seq<real>, p: real -> bool)
    ensures Count(xs, p) <= |xs|
    ensures (forall i :: 0 <= i < |xs| ==> p(xs[i])) ==> Count(xs, p) == |xs|
    ensures (forall i :: 0 <= i < |xs| ==> !p(xs[i])) ==> Count(xs, p) == 0
  {
    if xs != [] {
      CountRange(xs[1..], p);
      assert forall i :: 0 <= i < |xs[1..]| ==> xs[1..][i] == xs[i + 1];
    }
  }

  lemma {:induction false} CountInsert(x: real, xs: seq<real>, p: real -> bool)
    ensures Count(InsertDesc(x, xs), p) == Count([x] + xs, p)
  {
    assert ([x] + xs)[1..] == xs;
    if xs != [] && xs[0] > x {
      var rest := InsertDesc(x, xs[1..]);
      CountInsert(x, xs[1..], p);
      assert ([x] + xs[1..])[1..] == xs[1..];
      assert ([xs[0]] + rest)[1..] == rest;
    }
  }

  lemma {:induction false} CountedMember(xs: seq<real>, p: real -> bool)
    ensures Count(xs, p) > 0 <==> exists i :: 0 <= i < |xs| && p(xs[i])
  {
    if xs != [] {
      CountedMember(xs[1..], p);
      if i :| 0 <= i < |xs| && p(xs[i]) && i > 0 {
        assert p(xs[1..][i - 1]);
      }
    }
  }

  /** Sorting is a permutation: it changes no count. */
  lemma {:induction false} CountSorted(xs: seq<real>, p: real -> bool)
    ensures Count(SortDesc(xs), p) == Count(xs, p)
  {
    if xs != [] {
      CountSorted(xs[1..], p);
      CountInsert(xs[0], SortDesc(xs[1..]), p);
      assert ([xs[0]] + SortDesc(xs[1..]))[1..] == SortDesc(xs[1..]);
    }
  }

  lemma CountSplit(xs: seq<real>, k: nat, p: real -> bool)
    requires k <= |xs|
    ensures Count(xs, p) == Count(xs[..k], p) + Count(xs[k..], p)
  {
    assert xs == xs[..k] + xs[k..];
    CountConcat(xs[..k], xs[k..], p);
  }

  lemma CountTop(s: seq<real>, k: nat)
    requires 1 <= k <= |s| && Descending(s)
    ensures Count(s, x => x >= s[k - 1]) >= k
    ensures Count(s, x => x > s[k - 1]) <= k - 1
  {
    var reach, exceed := (x: real) => x >= s[k - 1], (x: real) => x > s[k - 1];
    CountSplit(s, k, reach);
    CountRange(s[..k], reach);
    CountSplit(s, k - 1, exceed);
    CountRange(s[..k - 1], exceed);
    CountRange(s[k - 1..], exceed);
    hide Count;
  }

  /** The k-th largest value: at least k values reach it and fewer than k exceed it. */
  lemma KthLargest(xs: seq<real>, k: nat)
    requires 1 <= k <= |xs|
    ensures
      var v := SortDesc(xs)[k - 1];
      && Count(xs, x => x >= v) >= k
      && Count(xs, x => x > v) <= k - 1
      && v in xs
  {
    var s := SortDesc(xs);
    var v := s[k - 1];
    SortDescSorts(xs);
    hide Count, SortDesc;
    CountTop(s, k);
    CountSorted(xs, x => x >= v);
    CountSorted(xs, x => x > v);
    CountSorted(xs, x => x == v);
    CountedMember(s, x => x == v);
    CountedMember(xs, x => x == v);
  }

  // ---------------------------------------------------------------- the estimates

  function Negated(xs: seq<real>): (n: seq<real>)
    ensures |n| == |xs| && forall i :: 0 <= i < |xs| ==> n[i] == -xs[i]
  {
    seq(|xs|, i requires 0 <= i < |xs| => -xs[i])
  }

  function Ceil(x: real): int {
    -((-x).Floor)
  }

  /** The tail share of n observations. */
  function Share(n: nat, confidence: real): real {
    n as real * (1.0 - confidence)
  }

  /** Number of losses in the tail: the tail share of n, rounded up, and at least one. */
  function TailCount(n: nat, confidence: real): (k: nat)
    ensures k >= 1
  {
    var c := Ceil(Round9(Share(n, confidence)));
    if c < 1 then 1 else c
  }

  function Window<T>(xs: seq<T>, window: nat): seq<T>
    requires window <= |xs|
  {
    xs[|xs| - window..]
  }

  function HistoricalVar(moves: seq<real>, confidence: real, window: nat): Option<real>
    requires 1 <= window && 0.0 <= confidence
  {
    if |moves| < window then None
    else
      TailFitsWindow(window, confidence);
      Some(SortDesc(Negated(Window(moves, window)))[TailCount(window, confidence) - 1])
  }

  function SumOf(xs: seq<real>): real {
    if xs == [] then 0.0 else xs[0] + SumOf(xs[1..])
  }

  function HistoricalCvar(moves: seq<real>, confidence: real, window: nat): Option<real>
    requires 1 <= window && 0.0 <= confidence
  {
    if |moves| < window then None
    else
      TailFitsWindow(window, confidence);
      var k := TailCount(window, confidence);
      Some(SumOf(SortDesc(Negated(Window(moves, window)))[..k]) / k as real)
  }

  lemma CeilReaches(x: real, n: int)
    ensures Ceil(x) <= n <==> x <= n as real
  {
  }

  lemma Round9AtMost(x: real, n: int)
    ensures Round9(x) <= n as real <==> x <= n as real + HALF_NINTH_DIGIT
  {
    var y, half := x * 1_000_000_000.0, n * 500_000_000;
    var k := RoundHalfEven(y);
    RoundAtMostEven(y, half);
    hide RoundHalfEven;
    assert Round9(x) <= n as real <==> k <= 2 * half;
  }

  lemma RoundAtMostEven(x: real, half: int)
    ensures RoundHalfEven(x) <= 2 * half <==> x <= (2 * half) as real + 0.5
  {
    var low := x.Floor;
    assert low as real <= x < low as real + 1.0;
  }

  /** The tail count reaches m exactly when the tail share is above m - 1, half a ninth digit aside. */
  lemma TailCountReaches(n: nat, confidence: real, m: int)
    requires m >= 1
    ensures TailCount(n, confidence) <= m <==> Share(n, confidence) <= m as real + HALF_NINTH_DIGIT
  {
    hide Round9, Ceil, Share;
    CeilReaches(Round9(Share(n, confidence)), m);
    Round9AtMost(Share(n, confidence), m);
  }

  lemma TailFitsWindow(n: nat, confidence: real)
    requires 1 <= n && 0.0 <= confidence
    ensures TailCount(n, confidence) <= n
  {
    TailCountReaches(n, confidence, n);
    hide TailCount;
    assert n as real * (1.0 - confidence) == n as real - n as real * confidence;
    assert 0.0 <= n as real * confidence;
  }

  /** VAR IS THE ORDER STATISTIC IT CLAIMS. At least k of the window's losses reach it and fewer
      than k exceed it, so breaches inside the window stay strictly below the tail share, while
      the losses reaching it number at least the tail share. */
  lemma VarIsTheTailQuantile(moves: seq<real>, confidence: real, window: nat)
    requires 1 <= window <= |moves| && 0.0 <= confidence < 1.0
    ensures
      var losses, v := Negated(Window(moves, window)), HistoricalVar(moves, confidence, window).value;
      var k, share := TailCount(window, confidence), Share(window, confidence);
      && v in losses
      && Count(losses, x => x >= v) >= k
      && Count(losses, x => x > v) <= k - 1
      && Count(losses, x => x > v) as real < share
      && Count(losses, x => x >= v) as real >= share - HALF_NINTH_DIGIT
  {
    var losses, v := Negated(Window(moves, window)), HistoricalVar(moves, confidence, window).value;
    var k := TailCount(window, confidence);
    TailFitsWindow(window, confidence);
    KthLargest(losses, k);
    assert v == SortDesc(losses)[k - 1];
    TailCountBetween(window, confidence);
    hide Count, SortDesc, TailCount, Share;
  }

  lemma ShareIsPositive(n: nat, confidence: real)
    requires 1 <= n && confidence < 1.0
    ensures Share(n, confidence) > 0.0
  {
  }

  lemma TailCountBetween(n: nat, confidence: real)
    requires 1 <= n && confidence < 1.0
    ensures
      var k, share := TailCount(n, confidence), Share(n, confidence);
      (k - 1) as real < share <= k as real + HALF_NINTH_DIGIT
  {
    ShareIsPositive(n, confidence);
    hide TailCount, Share;
    var k := TailCount(n, confidence);
    TailCountReaches(n, confidence, k);
    if k > 1 {
      TailCountReaches(n, confidence, k - 1);
    }
  }

  lemma {:induction false} SumAtLeast(xs: seq<real>, v: real)
    requires forall i :: 0 <= i < |xs| ==> xs[i] >= v
    ensures SumOf(xs) >= v * |xs| as real
  {
    if xs != [] {
      SumAtLeast(xs[1..], v);
      assert v * |xs| as real == v + v * |xs[1..]| as real;
    }
  }

  /** CVaR is the mean of the tail, and no smaller than VaR. */
  lemma CvarAtLeastVar(moves: seq<real>, confidence: real, window: nat)
    requires 1 <= window <= |moves| && 0.0 <= confidence
    ensures HistoricalVar(moves, confidence, window).value <= HistoricalCvar(moves, confidence, window).value
  {
    var losses, k := SortDesc(Negated(Window(moves, window))), TailCount(window, confidence);
    TailFitsWindow(window, confidence);
    SortDescSorts(Negated(Window(moves, window)));
    assert HistoricalVar(moves, confidence, window) == Some(losses[k - 1]);
    assert HistoricalCvar(moves, confidence, window) == Some(SumOf(losses[..k]) / k as real);
    hide HistoricalVar, HistoricalCvar;
    hide SortDesc, TailCount, SumOf;
    SumAtLeast(losses[..k], losses[k - 1]);
    MeanAtLeast(SumOf(losses[..k]), losses[k - 1], k);
  }

  lemma MeanAtLeast(total: real, v: real, k: nat)
    requires k >= 1 && total >= v * k as real
    ensures total / k as real >= v
  {
    var mean := total / k as real;
    assert mean * k as real == total;
    if mean < v {
      assert mean * k as real < v * k as real;
    }
  }

  // ---------------------------------------------------------------- the labelled tail

  function InsertPair<T>(p: (real, T), ps: seq<(real, T)>): seq<(real, T)> {
    if ps == [] || p.0 <= ps[0].0 then [p] + ps else [ps[0]] + InsertPair(p, ps[1..])
  }

  /** Stable sort by return, worst first. */
  function SortPairs<T>(ps: seq<(real, T)>): seq<(real, T)> {
    if ps == [] then [] else InsertPair(ps[0], SortPairs(ps[1..]))
  }

  function Zip<T>(moves: seq<real>, labels: seq<T>): seq<(real, T)>
    requires |moves| == |labels|
  {
    seq(|moves|, i requires 0 <= i < |moves| => (moves[i], labels[i]))
  }

  function TailLosses<T>(moves: seq<real>, labels: seq<T>, confidence: real, window: nat): Option<seq<(real, T)>>
    requires 1 <= window && 0.0 <= confidence
  {
    if |moves| < window || |labels| != |moves| then None
    else
      TailFitsWindow(window, confidence);
      var pairs := SortPairs(Zip(Window(moves, window), Window(labels, window)));
      SortPairsLength(Zip(Window(moves, window), Window(labels, window)));
      Some(pairs[..TailCount(window, confidence)])
  }

  /** The losses of labelled moves. */
  function LossesOf<T>(ps: seq<(real, T)>): (xs: seq<real>)
    ensures |xs| == |ps| && forall i :: 0 <= i < |ps| ==> xs[i] == -ps[i].0
  {
    seq(|ps|, i requires 0 <= i < |ps| => -ps[i].0)
  }

  lemma LossesOfCons<T>(p: (real, T), ps: seq<(real, T)>)
    ensures LossesOf([p] + ps) == [-p.0] + LossesOf(ps)
  {
  }

  lemma {:induction false} InsertPairKeepsLosses<T>(p: (real, T), ps: seq<(real, T)>)
    ensures LossesOf(InsertPair(p, ps)) == InsertDesc(-p.0, LossesOf(ps))
  {
    LossesOfCons(p, ps);
    if ps != [] && p.0 > ps[0].0 {
      InsertPairKeepsLosses(p, ps[1..]);
      assert LossesOf(ps)[1..] == LossesOf(ps[1..]);
      LossesOfCons(ps[0], InsertPair(p, ps[1..]));
    }
  }

  lemma {:induction false} InsertPairPermutes<T>(p: (real, T), ps: seq<(real, T)>)
    ensures |InsertPair(p, ps)| == |ps| + 1
    ensures multiset(InsertPair(p, ps)) == multiset(ps) + multiset{p}
  {
    if ps != [] && p.0 > ps[0].0 {
      InsertPairPermutes(p, ps[1..]);
      assert ps == [ps[0]] + ps[1..];
    }
  }

  lemma {:induction false} SortPairsLength<T>(ps: seq<(real, T)>)
    ensures |SortPairs(ps)| == |ps|
  {
    if ps != [] {
      SortPairsLength(ps[1..]);
      InsertPairPermutes(ps[0], SortPairs(ps[1..]));
    }
  }

  lemma {:induction false} SortPairsKeepsLosses<T>(ps: seq<(real, T)>)
    ensures LossesOf(SortPairs(ps)) == SortDesc(LossesOf(ps))
  {
    if ps != [] {
      hide InsertPair, InsertDesc;
      SortPairsKeepsLosses(ps[1..]);
      InsertPairKeepsLosses(ps[0], SortPairs(ps[1..]));
      var losses := LossesOf(ps);
      assert losses[1..] == LossesOf(ps[1..]) && losses[0] == -ps[0].0;
      hide LossesOf;
    }
  }

  lemma {:induction false} SortPairsPermutes<T>(ps: seq<(real, T)>)
    ensures multiset(SortPairs(ps)) == multiset(ps)
  {
    if ps != [] {
      SortPairsPermutes(ps[1..]);
      InsertPairPermutes(ps[0], SortPairs(ps[1..]));
      assert ps == [ps[0]] + ps[1..];
      hide InsertPair;
    }
  }

  /** The labelled tail is part of the labelled window, its losses are exactly the k largest ones
      in order, and its last entry is the VaR. */
  lemma TailIsTheVarTail<T>(moves: seq<real>, labels: seq<T>, confidence: real, window: nat)
    requires 1 <= window <= |moves| && |labels| == |moves| && 0.0 <= confidence
    ensures
      var tail := TailLosses(moves, labels, confidence, window).value;
      var k := TailCount(window, confidence);
      && |tail| == k <= window
      && LossesOf(tail) == SortDesc(Negated(Window(moves, window)))[..k]
      && -tail[k - 1].0 == HistoricalVar(moves, confidence, window).value
      && multiset(tail) <= multiset(Zip(Window(moves, window), Window(labels, window)))
  {
    var k := TailCount(window, confidence);
    TailFitsWindow(window, confidence);
    var ps := Zip(Window(moves, window), Window(labels, window));
    SortPairsKeepsLosses(ps);
    SortPairsLength(ps);
    SortPairsPermutes(ps);
    assert LossesOf(ps) == Negated(Window(moves, window));
    assert TailLosses(moves, labels, confidence, window) == Some(SortPairs(ps)[..k]);
    assert HistoricalVar(moves, confidence, window) == Some(SortDesc(LossesOf(ps))[k - 1]);
    hide HistoricalVar, TailLosses, SortPairs, SortDesc, TailCount, Zip;
    PrefixOfSorted(SortPairs(ps), k);
  }

  lemma PrefixOfSorted<T>(sorted: seq<(real, T)>, k: nat)
    requires 1 <= k <= |sorted|
    ensures LossesOf(sorted[..k]) == LossesOf(sorted)[..k]
    ensures multiset(sorted[..k]) <= multiset(sorted)
    ensures -sorted[..k][k - 1].0 == LossesOf(sorted)[k - 1]
  {
    assert sorted == sorted[..k] + sorted[k..];
  }
}
