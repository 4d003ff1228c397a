/** The exact two-sided sign test, against fair coin flips counted one by one. */
module SignTest {
  import opened Trading
  import opened Binomial

  /** Sum of the coefficients C(n, i) for i <= k. */
  function Tail(n: nat, k: nat): nat {
    Comb(n, k) + if k == 0 then 0 else Tail(n, k - 1)
  }

  function Doubled(tail: nat, all: nat): real
    requires all > 0
  {
    2.0 * (tail as real / all as real)
  }

  function SignTestP(wins: nat, losses: nat): real {
    var n := wins + losses;
    if n == 0 then 1.0
    else
      var p := Doubled(Tail(n, Min(wins, losses)), Two(n));
      if p < 1.0 then p else 1.0
  }

  /** A split of n with i on one side is at least as uneven as one with k on the smaller side. */
  predicate AtLeastAsUneven(n: int, k: int, i: int) {
    i <= k || n - i <= k
  }

  function Uneven(n: int, k: int): int -> bool {
    i => AtLeastAsUneven(n, k, i)
  }

  lemma {:induction false} TailIsSum(n: nat, k: nat, m: nat)
    requires m <= k && 2 * k < n
    ensures SumIf(n, m, Uneven(n, k)) == Tail(n, m)
  {
    if m > 0 {
      TailIsSum(n, k, m - 1);
    }
  }

  lemma {:induction false} MiddleAddsNothing(n: nat, k: nat, m: nat)
    requires k <= m < n - k && 2 * k < n
    ensures SumIf(n, m, Uneven(n, k)) == Tail(n, k)
  {
    if m == k {
      TailIsSum(n, k, k);
    } else {
      MiddleAddsNothing(n, k, m - 1);
    }
  }

  /** The upper tail mirrors the lower one. */
  lemma {:induction false} UpperTailMirrors(n: nat, k: nat, j: nat)
    requires j <= k && 2 * k < n
    ensures SumIf(n, n - k + j, Uneven(n, k)) + (if j == k then 0 else Tail(n, k - j - 1)) == 2 * Tail(n, k)
  {
    CombSymmetric(n, k - j);
    if j == 0 {
      MiddleAddsNothing(n, k, n - k - 1);
    } else {
      UpperTailMirrors(n, k, j - 1);
    }
  }

  lemma {:induction false} CombPositive(n: nat, k: nat)
    requires k <= n
    ensures Comb(n, k) > 0
  {
    if k > 0 {
      CombPositive(n - 1, k - 1);
    }
  }

  /** Number of flip sequences whose split is at least as uneven as the observed one. */
  function UnevenFlips(n: nat, k: nat): nat {
    CountFlips(Flips(n), Uneven(n, k))
  }

  /** Away from a tie the uneven flips are the two tails; at a tie they are all flips, and twice the
      tail overshoots them. */
  lemma UnevenFlipsAreTails(n: nat, k: nat)
    requires 2 * k <= n
    ensures 2 * k < n ==> UnevenFlips(n, k) == 2 * Tail(n, k) && UnevenFlips(n, k) <= Two(n)
    ensures 2 * k == n ==> UnevenFlips(n, k) == Two(n) && 2 * Tail(n, k) > Two(n)
  {
    FlipsAreBinomial(n, Uneven(n, k));
    AllFlipsCounted(Flips(n), Uneven(n, k));
    hide Flips, CountFlips;
    if 2 * k < n {
      UpperTailMirrors(n, k, k);
    } else if k == 0 {
      assert Tail(0, 0) == 1 && Two(0) == 1;
    } else {
      TieOvershoots(k);
    }
  }

  lemma TieOvershoots(k: nat)
    requires k > 0
    ensures 2 * Tail(2 * k, k) > Two(2 * k)
  {
    var n := 2 * k;
    FlipsAreBinomial(n, Uneven(n, k - 1));
    hide Flips;
    UpperTailMirrors(n, k - 1, k - 1);
    TieSplitsAll(n, k);
    CombPositive(n, k);
  }

  /** Both tails short of the tie, plus the tie itself, are all flips. */
  lemma TieSplitsAll(n: nat, k: nat)
    requires n == 2 * k && k > 0
    ensures 2 * Tail(n, k - 1) + Comb(n, k) == Two(n)
  {
    var all := (i: int) => true;
    FlipsAreBinomial(n, all);
    AllFlipsCounted(Flips(n), all);
    hide Flips, CountFlips;
    UpperTailMirrors(n, k - 1, k - 1);
    AllButMiddle(n, k, n, all);
  }

  lemma {:induction false} AllButMiddle(n: nat, k: nat, m: nat, all: int -> bool)
    requires n == 2 * k && k > 0 && m <= n
    requires forall i :: all(i)
    ensures SumIf(n, m, all) == SumIf(n, m, Uneven(n, k - 1)) + if m >= k then Comb(n, k) else 0
  {
    if m > 0 {
      AllButMiddle(n, k, m - 1, all);
    }
  }

  lemma QuotientAgainst(t: real, w: real)
    requires w > 0.0
    ensures 2.0 * (t / w) * w == 2.0 * t
    ensures 2.0 * (t / w) < 1.0 <==> 2.0 * t < w
    ensures 2.0 * (t / w) > 1.0 <==> 2.0 * t > w
  {
    var p := 2.0 * (t / w);
    assert (t / w) * w == t;
    AgainstWhole(p, w, 2.0 * t);
  }

  lemma AgainstWhole(p: real, w: real, pw: real)
    requires w > 0.0 && pw == p * w
    ensures p < 1.0 <==> pw < w
    ensures p > 1.0 <==> pw > w
  {
    assert (p - 1.0) * w == pw - w;
  }

  lemma DoubledAgainst(tail: nat, all: nat)
    requires all > 0
    ensures Doubled(tail, all) * all as real == (2 * tail) as real
    ensures Doubled(tail, all) < 1.0 <==> 2 * tail < all
    ensures Doubled(tail, all) > 1.0 <==> 2 * tail > all
  {
    QuotientAgainst(tail as real, all as real);
  }

  lemma OneTimes(x: real)
    ensures 1.0 * x == x
  {
  }

  /** THE P-VALUE IS A PROBABILITY: the share of all sequences of fair flips that split at least as
      unevenly as the observed wins and losses, the cap at 1 cutting something off exactly on ties. */
  lemma SignTestIsExact(wins: nat, losses: nat)
    requires wins + losses > 0
    ensures
      var n, k := wins + losses, Min(wins, losses);
      && SignTestP(wins, losses) * |Flips(n)| as real == UnevenFlips(n, k) as real
      && (Doubled(Tail(n, k), Two(n)) > 1.0 <==> wins == losses)
  {
    var n, k := wins + losses, Min(wins, losses);
    hide Flips, UnevenFlips, Tail, Two, Doubled;
    FlipsAreBinomial(n, Uneven(n, k));
    UnevenFlipsAreTails(n, k);
    CappedAgainst(Tail(n, k), Two(n));
  }

  /** Capping twice the share of a tail at 1 caps twice the tail at the whole. */
  lemma CappedAgainst(tail: nat, all: nat)
    requires all > 0
    ensures
      var p := Doubled(tail, all);
      && (if p < 1.0 then p else 1.0) * all as real == Min(2 * tail, all) as real
      && (p > 1.0 <==> 2 * tail > all)
  {
    DoubledAgainst(tail, all);
    hide Doubled;
    OneTimes(all as real);
  }

  /** Wins and losses play symmetric parts, and with no decided pair the p-value is 1. */
  lemma SignTestSymmetric(wins: nat, losses: nat)
    ensures SignTestP(wins, losses) == SignTestP(losses, wins)
    ensures 0.0 < SignTestP(wins, losses) <= 1.0
    ensures SignTestP(0, 0) == 1.0
  {
    var n, k := wins + losses, Min(wins, losses);
    TailPositive(n, k);
    DoubledPositive(Tail(n, k), Two(n));
    hide Tail, Two, Doubled;
    assert Min(losses, wins) == k && losses + wins == n;
  }

  lemma DoubledPositive(tail: nat, all: nat)
    requires tail > 0 && all > 0
    ensures Doubled(tail, all) > 0.0
  {
  }

  lemma {:induction false} TailPositive(n: nat, k: nat)
    requires k <= n
    ensures Tail(n, k) > 0
  {
    CombPositive(n, k);
  }
}
