/** The replay as the program runs it: one mutable result whose lot list is appended to, shrunk
    and popped row by row, and the path statistics computed by replaying every prefix. */
module ReplayMachine {
  import opened Trading
  import opened Lots
  import opened Replay

  class Result {
    var lots: seq<Lot>
    var realized: real
    var closed: nat
    var buys: nat
    var sells: nat
    var blocked: nat
    var peak: Option<real>
    var lastBuy: Option<int>

    function Model(): State
      reads this
    {
      State(lots, realized, closed, buys, sells, blocked, peak, lastBuy)
    }

    constructor ()
      ensures Model() == START
    {
      lots, realized, closed, buys, sells, blocked, peak, lastBuy := [], 0.0, 0, 0, 0, 0, None, None;
    }

    /** Sells from the front of the lot list, popping whole lots and shrinking the last one. */
    method SellFifo(quantity: int, price: real) returns (gained: real, rows: nat)
      modifies this`lots
      ensures Sale(lots, gained, rows) == Lots.SellFifo(old(lots), quantity, price, Exact)
    {
      var remaining := quantity;
      gained, rows := 0.0, 0;
      ghost var whole := Lots.SellFifo(lots, quantity, price, Exact);
      while remaining > 0 && lots != []
        invariant var rest := Lots.SellFifo(lots, remaining, price, Exact);
                  whole == Sale(rest.lots, gained + rest.realized, rows + rest.closed)
        decreases |lots|, remaining
      {
        hide Pnl;
        var lot := lots[0];
        var closeQty := Min(remaining, lot.quantity);
        gained := gained + Pnl(price, lot.entry, closeQty);
        if closeQty == lot.quantity {
          lots := lots[1..];
        } else {
          lots := [lot.(quantity := lot.quantity - closeQty)] + lots[1..];
        }
        rows := rows + 1;
        remaining := remaining - closeQty;
      }
    }

    method Perform(f: Fill)
      modifies this
      ensures Model() == Execute(old(Model()), f)
    {
      if f.action == BUY {
        lots := lots + [Lot(f.quantity, f.price)];
        buys := buys + 1;
      } else if f.action == SELL {
        var gained, rows := SellFifo(f.quantity, f.price);
        realized := realized + (gained - COMMISSION);
        closed := closed + rows;
        sells := sells + 1;
      }
    }

    /** Peak bookkeeping, then the stops: they fire on price, before the day's proposal. */
    method ForceExit(row: TapeRow, rules: Rules, bps: real)
      modifies this
      ensures Model() == AfterExit(old(Model()), row, rules, bps)
    {
      hide Slip, Held, AvgEntry, Lots.SellFifo;
      var held := Held(lots);
      if held != 0 {
        peak := if peak.None? || row.price > peak.value then Some(row.price) else peak;
      } else {
        peak := None;
      }
      if held != 0 && (rules.stopLoss.Some? || rules.trailingStop.Some?) {
        var avg, hit := AvgEntry(lots), false;
        if rules.stopLoss.Some? && avg > 0.0 {
          if DownBy(avg, row.price, rules.stopLoss.value) {
            hit := true;
          }
        }
        if rules.trailingStop.Some? && peak.Some? && peak.value != 0.0 {
          if DownBy(peak.value, row.price, rules.trailingStop.value) {
            hit := true;
          }
        }
        if hit {
          Perform(Fill(SELL, held, Slip(row.price, SELL, bps)));
          peak := None;
        }
      }
    }

    /** The day's proposal through the gate. */
    method Propose(row: TapeRow, rules: Rules, bps: real)
      modifies this
      ensures Model() == AfterGate(old(Model()), row, rules, bps)
    {
      hide Slip, Held, AvgEntry, Lots.SellFifo;
      var qty, held := Quantity(row), Held(lots);
      if row.action == HOLD || qty <= 0 {
        return;
      }
      if row.action == BUY {
        if held >= MAX_POSITION_QTY {
          blocked := blocked + 1;
          return;
        }
        if rules.maxDrawdown.Some? && held != 0 {
          var avg := AvgEntry(lots);
          if avg > 0.0 && DownBy(avg, row.price, rules.maxDrawdown.value) {
            blocked := blocked + 1;
            return;
          }
        }
        if BlockedBySpacing(row.day, lastBuy, rules.minDays) {
          blocked := blocked + 1;
          return;
        }
        var cap := MAX_POSITION_QTY;
        if rules.varBudget && row.varMaxQty.Some? {
          cap := Min(cap, row.varMaxQty.value);
          if held >= cap {
            blocked := blocked + 1;
            return;
          }
        }
        Perform(Fill(BUY, Min(qty, cap - held), Slip(row.price, BUY, bps)));
        lastBuy := Some(row.day);
      } else {
        if held == 0 {
          blocked := blocked + 1;
          return;
        }
        Perform(Fill(SELL, Min(qty, held), Slip(row.price, SELL, bps)));
      }
    }
  }

  method RunReplay(tape: seq<TapeRow>, rules: Rules, bps: real) returns (res: Result)
    ensures fresh(res) && res.Model() == Run(tape, rules, bps)
  {
    hide AfterExit, AfterGate;
    res := new Result();
    var i := 0;
    while i < |tape|
      invariant 0 <= i <= |tape|
      invariant res.Model() == Run(tape[..i], rules, bps)
    {
      assert tape[..i + 1][..i] == tape[..i];
      res.ForceExit(tape[i], rules, bps);
      res.Propose(tape[i], rules, bps);
      i := i + 1;
    }
    assert tape[..i] == tape;
  }

  // ---------------------------------------------------------------- path statistics

  /** The daily curve: each day's mark-to-market at that day's price. */
  function Curve(tape: seq<TapeRow>, rules: Rules, bps: real): seq<real> {
    if tape == [] then []
    else Curve(tape[..|tape| - 1], rules, bps) + [MarkToMarket(Run(tape, rules, bps), tape[|tape| - 1].price)]
  }

  function HeldPath(tape: seq<TapeRow>, rules: Rules, bps: real): seq<int> {
    if tape == [] then []
    else HeldPath(tape[..|tape| - 1], rules, bps) + [Held(Run(tape, rules, bps).lots)]
  }

  function Sum(xs: seq<int>): int {
    if xs == [] then 0 else Sum(xs[..|xs| - 1]) + xs[|xs| - 1]
  }

  /** `dd` is the largest fall of the curve from any day to the same or a later one. */
  ghost predicate IsMaxDrawdown(curve: seq<real>, dd: real) {
    && (forall i, j :: 0 <= i <= j < |curve| ==> curve[i] - curve[j] <= dd)
    && (exists i, j :: 0 <= i <= j < |curve| && curve[i] - curve[j] == dd)
  }

  /** The one-pass peak loop finds the largest fall over all pairs of days. */
  method MaxDrawdown(curve: seq<real>) returns (maxDd: real)
    requires curve != []
    ensures IsMaxDrawdown(curve, maxDd)
  {
    var peak := curve[0];
    maxDd := 0.0;
    ghost var top, from, to := 0, 0, 0;
    var k := 0;
    while k < |curve|
      invariant 0 <= k <= |curve|
      invariant 0 <= top < |curve| && (k == 0 ==> top == 0) && (k > 0 ==> top < k) && peak == curve[top]
      invariant forall i :: 0 <= i < k ==> curve[i] <= peak
      invariant 0 <= from <= to < |curve| && curve[from] - curve[to] == maxDd
      invariant 0.0 <= maxDd
      invariant forall i, j :: 0 <= i <= j < k ==> curve[i] - curve[j] <= maxDd
    {
      if curve[k] > peak {
        peak, top := curve[k], k;
      }
      if peak - curve[k] > maxDd {
        maxDd, from, to := peak - curve[k], top, k;
      }
      k := k + 1;
    }
  }

  /** Final mark-to-market, maximum drawdown and average shares held, from one replay per prefix. */
  method PathStats(tape: seq<TapeRow>, rules: Rules, bps: real) returns (final: real, maxDd: real, average: real)
    requires tape != []
    ensures final == MarkToMarket(Run(tape, rules, bps), tape[|tape| - 1].price)
    ensures IsMaxDrawdown(Curve(tape, rules, bps), maxDd)
    ensures average == Sum(HeldPath(tape, rules, bps)) as real / |tape| as real
  {
    var curve, held: seq<int>, total := [], [], 0;
    var k := 0;
    while k < |tape|
      invariant 0 <= k <= |tape|
      invariant |curve| == |held| == k
      invariant curve == Curve(tape[..k], rules, bps)
      invariant held == HeldPath(tape[..k], rules, bps)
      invariant total == Sum(held)
    {
      hide MarkToMarket, Run;
      assert tape[..k + 1][..k] == tape[..k];
      var res := RunReplay(tape[..k + 1], rules, bps);
      curve := curve + [MarkToMarket(res.Model(), tape[k].price)];
      assert (held + [Held(res.lots)])[..k] == held;
      held := held + [Held(res.lots)];
      total := total + Held(res.lots);
      k := k + 1;
    }
    assert tape[..k] == tape;
    final := curve[k - 1];
    maxDd := MaxDrawdown(curve);
    average := total as real / |held| as real;
  }

  /** Day k of the curve and of the holding path belong to the replay of the first k + 1 rows. */
  lemma {:induction false} PathsAt(tape: seq<TapeRow>, rules: Rules, bps: real, k: nat)
    requires k < |tape|
    ensures |Curve(tape, rules, bps)| == |HeldPath(tape, rules, bps)| == |tape|
    ensures Curve(tape, rules, bps)[k] == MarkToMarket(Run(tape[..k + 1], rules, bps), tape[k].price)
    ensures HeldPath(tape, rules, bps)[k] == Held(Run(tape[..k + 1], rules, bps).lots)
  {
    hide Run, MarkToMarket;
    var n := |tape| - 1;
    assert tape[..n + 1] == tape;
    if n > 0 {
      PathsAt(tape[..n], rules, bps, if k < n then k else 0);
      if k < n {
        assert tape[..n][..k + 1] == tape[..k + 1];
      }
    }
  }
}
