/** Powers, binomial coefficients, and counting coin flips. */
module Binomial {

  function Pow(b: real, e: nat): real {
    if e == 0 then 1.0 else b * Pow(b, e - 1)
  }

  /** Number of ways to choose k of n, by Pascal's rule. */
  function Comb(n: nat, k: nat): nat {
    if k == 0 then 1 else if n == 0 then 0 else Comb(n - 1, k - 1) + Comb(n - 1, k)
  }

  function Factorial(n: nat): nat {
    if n == 0 then 1 else n * Factorial(n - 1)
  }

  function Two(n: nat): (p: nat)
    ensures p > 0
  {
    if n == 0 then 1 else 2 * Two(n - 1)
  }

  lemma {:induction false} CombBeyond(n: nat, k: nat)
    requires k > n
    ensures Comb(n, k) == 0
  {
    if n > 0 {
      CombBeyond(n - 1, k - 1);
      CombBeyond(n - 1, k);
    }
  }

  lemma {:induction false} CombFull(n: nat)
    ensures Comb(n, n) == 1
  {
    if n > 0 {
      CombFull(n - 1);
      CombBeyond(n - 1, n);
    }
  }

  lemma PullOut(a: nat, k: nat, f: nat, y: nat, x: nat, h: nat)
    requires x == k * f && a * f * y == h
    ensures a * x * y == k * h
  {
    assert a * (k * f) * y == k * (a * f * y);
  }

  lemma PullOutLast(b: nat, x: nat, m: nat, g: nat, y: nat, h: nat)
    requires y == m * g && b * x * g == h
    ensures b * x * y == m * h
  {
    assert b * x * (m * g) == m * (b * x * g);
  }

  lemma SumProducts(a: nat, b: nat, x: nat, y: nat, k: nat, m: nat, h: nat)
    requires a * x * y == k * h && b * x * y == m * h
    ensures (a + b) * x * y == (k + m) * h
  {
    assert (a + b) * x == a * x + b * x;
    assert (a + b) * x * y == a * x * y + b * x * y;
  }

  lemma CombStep(n: nat, k: nat)
    requires 0 < k < n
    requires Comb(n - 1, k - 1) * Factorial(k - 1) * Factorial(n - k) == Factorial(n - 1)
    requires Comb(n - 1, k) * Factorial(k) * Factorial(n - 1 - k) == Factorial(n - 1)
    ensures (Comb(n - 1, k - 1) + Comb(n - 1, k)) * Factorial(k) * Factorial(n - k) == n * Factorial(n - 1)
  {
    var a, b, h := Comb(n - 1, k - 1), Comb(n - 1, k), Factorial(n - 1);
    var f, x, g, y := Factorial(k - 1), Factorial(k), Factorial(n - 1 - k), Factorial(n - k);
    assert x == k * f && y == (n - k) * g;
    hide Comb, Factorial;
    PullOut(a, k, f, y, x, h);
    PullOutLast(b, x, n - k, g, y, h);
    SumProducts(a, b, x, y, k, n - k, h);
  }

  /** The coefficient is the quotient of factorials that `math.comb` computes. */
  lemma {:induction false} CombIsFactorialQuotient(n: nat, k: nat)
    requires k <= n
    ensures Comb(n, k) * Factorial(k) * Factorial(n - k) == Factorial(n)
  {
    if k == n {
      CombFull(n);
      assert Factorial(0) == 1;
    } else if k == 0 {
      assert Factorial(0) == 1;
    } else {
      CombIsFactorialQuotient(n - 1, k - 1);
      CombIsFactorialQuotient(n - 1, k);
      CombStep(n, k);
    }
  }

  lemma {:induction false} CombSymmetric(n: nat, k: nat)
    requires k <= n
    ensures Comb(n, k) == Comb(n, n - k)
  {
    if k == 0 {
      CombFull(n);
    } else if k == n {
      CombFull(n);
    } else {
      CombSymmetric(n - 1, k - 1);
      CombSymmetric(n - 1, k);
    }
  }

  function Shift(p: int -> bool, d: int): int -> bool {
    i => p(i + d)
  }

  /** The sum of the coefficients C(n, i), i <= m, whose index satisfies p. */
  function SumIf(n: nat, m: nat, p: int -> bool): nat {
    (if p(m) then Comb(n, m) else 0) + if m == 0 then 0 else SumIf(n, m - 1, p)
  }

  lemma {:induction false} SumIfPascal(n: nat, m: nat, p: int -> bool)
    ensures SumIf(n + 1, m + 1, p) == SumIf(n, m + 1, p) + SumIf(n, m, Shift(p, 1))
  {
    if m > 0 {
      SumIfPascal(n, m - 1, p);
    } else {
      assert SumIf(n, 0, Shift(p, 1)) == if p(1) then 1 else 0;
    }
  }

  // ---------------------------------------------------------------- coin flips

  /** The sequences of n flips: those starting with tails, then those starting with heads. */
  function Flips(n: nat): seq<seq<bool>> {
    if n == 0 then [[]] else Prepend(false, Flips(n - 1)) + Prepend(true, Flips(n - 1))
  }

  function Prepend(b: bool, flips: seq<seq<bool>>): seq<seq<bool>> {
    if flips == [] then [] else [[b] + flips[0]] + Prepend(b, flips[1..])
  }

  function Heads(flip: seq<bool>): nat {
    if flip == [] then 0 else (if flip[0] then 1 else 0) + Heads(flip[1..])
  }

  /** How many of these flips have a number of heads satisfying p. */
  function CountFlips(flips: seq<seq<bool>>, p: int -> bool): nat {
    if flips == [] then 0 else (if p(Heads(flips[0])) then 1 else 0) + CountFlips(flips[1..], p)
  }

  lemma {:induction false} CountFlipsConcat(a: seq<seq<bool>>, b: seq<seq<bool>>, p: int -> bool)
    ensures CountFlips(a + b, p) == CountFlips(a, p) + CountFlips(b, p)
  {
    if a == [] {
      assert a + b == b;
    } else {
      assert (a + b)[1..] == a[1..] + b;
      CountFlipsConcat(a[1..], b, p);
    }
  }

  lemma {:induction false} CountPrepended(b: bool, flips: seq<seq<bool>>, p: int -> bool)
    ensures |Prepend(b, flips)| == |flips|
    ensures CountFlips(Prepend(b, flips), p) == CountFlips(flips, Shift(p, if b then 1 else 0))
  {
    if flips != [] {
      CountPrepended(b, flips[1..], p);
      assert ([b] + flips[0])[1..] == flips[0];
      assert Prepend(b, flips)[1..] == Prepend(b, flips[1..]);
    }
  }

  lemma {:induction false} PrependedAt(b: bool, flips: seq<seq<bool>>)
    ensures |Prepend(b, flips)| == |flips|
    ensures forall i :: 0 <= i < |flips| ==> Prepend(b, flips)[i] == [b] + flips[i]
  {
    if flips != [] {
      PrependedAt(b, flips[1..]);
    }
  }

  /** The list of flips is complete and without repeats: every sequence of n flips is in it, at
      exactly one place, and nothing else is. */
  lemma {:induction false} FlipsListAllOnce(n: nat)
    ensures forall i :: 0 <= i < |Flips(n)| ==> |Flips(n)[i]| == n
    ensures forall flip: seq<bool> :: |flip| == n ==> flip in Flips(n)
    ensures forall i, j :: 0 <= i < j < |Flips(n)| ==> Flips(n)[i] != Flips(n)[j]
  {
    if n > 0 {
      FlipsListAllOnce(n - 1);
      var rest, m := Flips(n - 1), |Flips(n - 1)|;
      var tails, heads := Prepend(false, rest), Prepend(true, rest);
      PrependedAt(false, rest);
      PrependedAt(true, rest);
      assert Flips(n) == tails + heads;
      hide Flips, Prepend;
      forall flip: seq<bool> | |flip| == n ensures flip in tails + heads {
        assert flip[1..] in rest;
        var i :| 0 <= i < m && rest[i] == flip[1..];
        assert flip == [flip[0]] + flip[1..];
        assert flip == if flip[0] then heads[i] else tails[i];
      }
      NoRepeats(rest, tails, heads);
    }
  }

  lemma NoRepeats(rest: seq<seq<bool>>, tails: seq<seq<bool>>, heads: seq<seq<bool>>)
    requires |tails| == |heads| == |rest|
    requires forall i :: 0 <= i < |rest| ==> tails[i] == [false] + rest[i] && heads[i] == [true] + rest[i]
    requires forall i, j :: 0 <= i < j < |rest| ==> rest[i] != rest[j]
    ensures forall i, j :: 0 <= i < j < |tails + heads| ==> (tails + heads)[i] != (tails + heads)[j]
  {
    var m := |rest|;
    forall i, j | 0 <= i < j < 2 * m ensures (tails + heads)[i] != (tails + heads)[j] {
      assert (tails + heads)[i][0] == (i >= m) && (tails + heads)[j][0] == (j >= m);
      if (i < m) == (j < m) {
        assert (tails + heads)[i][1..] == rest[if i < m then i else i - m];
        assert (tails + heads)[j][1..] == rest[if j < m then j else j - m];
      }
    }
  }

  lemma {:induction false} CountFlipsAgrees(flips: seq<seq<bool>>, p: int -> bool, q: int -> bool)
    requires forall i :: p(i) == q(i)
    ensures CountFlips(flips, p) == CountFlips(flips, q)
  {
    if flips != [] {
      CountFlipsAgrees(flips[1..], p, q);
    }
  }

  /** Among all flips, those with a number of heads in p number the sum of the coefficients in p. */
  lemma {:induction false} FlipsAreBinomial(n: nat, p: int -> bool)
    ensures |Flips(n)| == Two(n)
    ensures CountFlips(Flips(n), p) == SumIf(n, n, p)
  {
    if n == 0 {
      assert CountFlips([[]], p) == if p(0) then 1 else 0;
    } else {
      hide Flips, CountFlips, Shift, SumIf;
      FlipsAreBinomial(n - 1, p);
      FlipsAreBinomial(n - 1, Shift(p, 1));
      FlipOnce(n, p);
      SumIfPascal(n - 1, n - 1, p);
      NothingBeyond(n - 1, p);
    }
  }

  lemma NothingBeyond(n: nat, p: int -> bool)
    ensures SumIf(n, n + 1, p) == SumIf(n, n, p)
  {
    CombBeyond(n, n + 1);
    hide Comb;
  }

  lemma FlipOnce(n: nat, p: int -> bool)
    requires n > 0
    ensures |Flips(n)| == 2 * |Flips(n - 1)|
    ensures CountFlips(Flips(n), p) == CountFlips(Flips(n - 1), p) + CountFlips(Flips(n - 1), Shift(p, 1))
  {
    var rest := Flips(n - 1);
    assert Flips(n) == Prepend(false, rest) + Prepend(true, rest);
    hide Flips, CountFlips, Prepend;
    CountFlipsConcat(Prepend(false, rest), Prepend(true, rest), p);
    CountPrepended(false, rest, p);
    CountPrepended(true, rest, p);
    CountFlipsAgrees(rest, Shift(p, 0), p);
  }

  lemma {:induction false} AllFlipsCounted(flips: seq<seq<bool>>, p: int -> bool)
    ensures CountFlips(flips, p) <= |flips|
    ensures (forall i :: p(i)) ==> CountFlips(flips, p) == |flips|
  {
    if flips != [] {
      AllFlipsCounted(flips[1..], p);
    }
  }
}
