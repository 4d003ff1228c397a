/** Open lots and the oldest-first sale shared, as an algorithm, by the table ledgers and by
    the replay. The independent account of a sale is the queue of single shares: every lot
    contributes its entry price once per share, and selling n shares drops the first n. */
module Lots {
  import opened Trading

  datatype Lot = Lot(quantity: int, entry: real)

  datatype Sale = Sale(lots: seq<Lot>, realized: real, closed: nat)

  predicate Positive(lots: seq<Lot>) {
    forall i :: 0 <= i < |lots| ==> lots[i].quantity > 0
  }

  function Held(lots: seq<Lot>): int {
    if lots == [] then 0 else lots[0].quantity + Held(lots[1..])
  }

  /** What selling `quantity` shares bought at `entry` earns at `price`. */
  function Pnl(price: real, entry: real, quantity: int): real {
    (price - entry) * quantity as real
  }

  /** Oldest lot first, splitting the last one touched. `keep` is what the storage column
      keeps of one row's realized P&L (the identity for the in-memory replay). */
  function SellFifo(lots: seq<Lot>, remaining: int, price: real, keep: real -> real): Sale
    decreases |lots|
  {
    if remaining <= 0 || lots == [] then
      Sale(lots, 0.0, 0)
    else
      var closeQty := Min(remaining, lots[0].quantity);
      var pnl := keep(Pnl(price, lots[0].entry, closeQty));
      if closeQty == lots[0].quantity then
        var rest := SellFifo(lots[1..], remaining - closeQty, price, keep);
        Sale(rest.lots, pnl + rest.realized, 1 + rest.closed)
      else
        Sale([lots[0].(quantity := lots[0].quantity - closeQty)] + lots[1..], pnl, 1)
  }

  // ---------------------------------------------------------------- the queue of shares

  function Copies(x: real, n: nat): seq<real> {
    seq(n, _ => x)
  }

  function Shares(lots: seq<Lot>): seq<real>
    requires Positive(lots)
  {
    if lots == [] then [] else Copies(lots[0].entry, lots[0].quantity) + Shares(lots[1..])
  }

  /** What selling exactly these shares at `price` earns over their entry prices. */
  function Gain(shares: seq<real>, price: real): real {
    if shares == [] then 0.0 else price - shares[0] + Gain(shares[1..], price)
  }

  lemma {:induction false} HeldIsQueueLength(lots: seq<Lot>)
    requires Positive(lots)
    ensures Held(lots) == |Shares(lots)|
  {
    if lots != [] {
      HeldIsQueueLength(lots[1..]);
    }
  }

  lemma {:induction false} HeldConcat(a: seq<Lot>, b: seq<Lot>)
    ensures Held(a + b) == Held(a) + Held(b)
  {
    if a == [] {
      assert a + b == b;
    } else {
      assert (a + b)[1..] == a[1..] + b;
      HeldConcat(a[1..], b);
    }
  }

  lemma {:induction false} SharesConcat(a: seq<Lot>, b: seq<Lot>)
    requires Positive(a) && Positive(b)
    ensures Positive(a + b) && Shares(a + b) == Shares(a) + Shares(b)
  {
    if a == [] {
      assert a + b == b;
    } else {
      assert (a + b)[1..] == a[1..] + b;
      SharesConcat(a[1..], b);
      assert Shares(a + b) == Copies(a[0].entry, a[0].quantity) + (Shares(a[1..]) + Shares(b));
    }
  }

  lemma {:induction false} GainConcat(a: seq<real>, b: seq<real>, price: real)
    ensures Gain(a + b, price) == Gain(a, price) + Gain(b, price)
  {
    if a == [] {
      assert a + b == b;
    } else {
      assert (a + b)[1..] == a[1..] + b;
      GainConcat(a[1..], b, price);
    }
  }

  lemma {:induction false} GainOfCopies(x: real, n: nat, price: real)
    ensures Gain(Copies(x, n), price) == Pnl(price, x, n)
  {
    if n > 0 {
      assert Copies(x, n)[1..] == Copies(x, n - 1);
      GainOfCopies(x, n - 1, price);
      PnlOfOneMore(price, x, n - 1);
      hide Pnl;
    } else {
      PnlOfOneMore(price, x, 0);
    }
  }

  lemma PnlOfOneMore(price: real, x: real, n: nat)
    ensures Pnl(price, x, 0) == 0.0 && Pnl(price, x, n + 1) == (price - x) + Pnl(price, x, n)
  {
    var gap := price - x;
    assert (n + 1) as real == n as real + 1.0;
    assert gap * (n as real + 1.0) == gap * n as real + gap;
  }

  /** The sale when the oldest lot is closed whole, and when it is split. */
  lemma SaleOfWholeLot(lots: seq<Lot>, n: nat, price: real, keep: real -> real)
    requires lots != [] && 0 < lots[0].quantity <= n
    ensures
      var rest := SellFifo(lots[1..], n - lots[0].quantity, price, keep);
      SellFifo(lots, n, price, keep)
        == Sale(rest.lots, keep(Pnl(price, lots[0].entry, lots[0].quantity)) + rest.realized, 1 + rest.closed)
  {
  }

  lemma SaleSplitsLot(lots: seq<Lot>, n: nat, price: real, keep: real -> real)
    requires lots != [] && 0 < n < lots[0].quantity
    ensures SellFifo(lots, n, price, keep)
              == Sale([Lot(lots[0].quantity - n, lots[0].entry)] + lots[1..], keep(Pnl(price, lots[0].entry, n)), 1)
  {
  }

  lemma SharesAfterSplit(lots: seq<Lot>, n: nat)
    requires Positive(lots) && lots != [] && 0 < n < lots[0].quantity
    ensures
      var after := [Lot(lots[0].quantity - n, lots[0].entry)] + lots[1..];
      && Positive(after)
      && |Shares(lots)| > n
      && Shares(after) == Shares(lots)[n..]
      && Shares(lots)[..n] == Copies(lots[0].entry, n)
  {
    var after := [Lot(lots[0].quantity - n, lots[0].entry)] + lots[1..];
    assert after[1..] == lots[1..];
    assert Copies(lots[0].entry, lots[0].quantity)
        == Copies(lots[0].entry, n) + Copies(lots[0].entry, lots[0].quantity - n);
  }

  lemma SharesPastWholeLot(lots: seq<Lot>, n: nat)
    requires Positive(lots) && lots != [] && lots[0].quantity <= n <= |Shares(lots)|
    ensures
      var q := lots[0].quantity;
      && n - q <= |Shares(lots[1..])|
      && Shares(lots)[n..] == Shares(lots[1..])[n - q..]
      && Shares(lots)[..n] == Copies(lots[0].entry, q) + Shares(lots[1..])[..n - q]
  {
  }

  /** Selling n shares drops the n oldest shares from the queue ... */
  lemma {:induction false} SaleDropsOldestShares(lots: seq<Lot>, n: nat, price: real, keep: real -> real)
    requires Positive(lots) && n <= Held(lots)
    ensures |Shares(lots)| == Held(lots)
    ensures
      var after := SellFifo(lots, n, price, keep).lots;
      Positive(after) && Shares(after) == Shares(lots)[n..] && Held(after) == Held(lots) - n
    decreases |lots|
  {
    HeldIsQueueLength(lots);
    if n == 0 {
    } else if n >= lots[0].quantity {
      SaleOfWholeLot(lots, n, price, keep);
      SharesPastWholeLot(lots, n);
      SaleDropsOldestShares(lots[1..], n - lots[0].quantity, price, keep);
    } else {
      SaleSplitsLot(lots, n, price, keep);
      SharesAfterSplit(lots, n);
      HeldIsQueueLength([Lot(lots[0].quantity - n, lots[0].entry)] + lots[1..]);
    }
  }

  /** ... and realizes exactly the gain on those shares, when nothing is rounded away. */
  lemma {:induction false} SaleRealizesGainOnOldestShares(lots: seq<Lot>, n: nat, price: real, keep: real -> real)
    requires Positive(lots) && n <= Held(lots)
    requires forall x :: keep(x) == x
    ensures |Shares(lots)| == Held(lots)
    ensures SellFifo(lots, n, price, keep).realized == Gain(Shares(lots)[..n], price)
    decreases |lots|
  {
    HeldIsQueueLength(lots);
    if n == 0 {
    } else if n >= lots[0].quantity {
      var q := lots[0].quantity;
      SaleOfWholeLot(lots, n, price, keep);
      SharesPastWholeLot(lots, n);
      SaleRealizesGainOnOldestShares(lots[1..], n - q, price, keep);
      GainConcat(Copies(lots[0].entry, q), Shares(lots[1..])[..n - q], price);
      GainOfCopies(lots[0].entry, q, price);
    } else {
      SaleSplitsLot(lots, n, price, keep);
      SharesAfterSplit(lots, n);
      GainOfCopies(lots[0].entry, n, price);
    }
  }

  /** The lots after a sale: the first `whole` of them gone, then `short` shares taken out of the next. */
  function Cut(lots: seq<Lot>, whole: nat, short: int): seq<Lot>
    requires whole <= |lots| && (short != 0 ==> whole < |lots|)
  {
    if short == 0 then lots[whole..]
    else [lots[whole].(quantity := lots[whole].quantity - short)] + lots[whole + 1..]
  }

  lemma CutShift(lots: seq<Lot>, whole: nat, short: int)
    requires 0 < whole <= |lots| && (short != 0 ==> whole < |lots|)
    ensures Cut(lots, whole, short) == Cut(lots[1..], whole - 1, short)
    ensures Held(lots[..whole]) == lots[0].quantity + Held(lots[1..][..whole - 1])
  {
    assert lots[..whole][1..] == lots[1..][..whole - 1];
    assert lots[1..][whole - 1..] == lots[whole..];
  }

  /** Lot structure of a sale: the oldest lots close whole, at most one lot is split, and the
      number of CLOSED rows counts every lot touched. */
  lemma {:induction false} SaleTouchesLotsInOrder(lots: seq<Lot>, n: nat, price: real, keep: real -> real)
    returns (whole: nat, short: nat)
    requires Positive(lots) && n <= Held(lots)
    ensures whole <= |lots| && Held(lots[..whole]) + short == n
    ensures short != 0 ==> whole < |lots| && short < lots[whole].quantity
    ensures SellFifo(lots, n, price, keep).lots == Cut(lots, whole, short)
    ensures SellFifo(lots, n, price, keep).closed == whole + (if short != 0 then 1 else 0)
    decreases |lots|
  {
    if n == 0 {
      whole, short := 0, 0;
    } else if n >= lots[0].quantity {
      SaleOfWholeLot(lots, n, price, keep);
      hide SellFifo, Pnl;
      whole, short := SaleTouchesLotsInOrder(lots[1..], n - lots[0].quantity, price, keep);
      whole := whole + 1;
      CutShift(lots, whole, short);
      hide Cut, Held;
    } else {
      SaleSplitsLot(lots, n, price, keep);
      hide SellFifo, Pnl;
      whole, short := 0, n;
      assert lots[..0] == [];
    }
  }
}
