/** What slippage costs, fill by fill and over whole runs, against the prices before it. */
module Slippage {
  import opened Trading
  import opened Lots
  import opened RiskGate
  import opened Ledger
  import opened Engine
  import opened Replay
  import Counterfactual

  /** `bps` ten-thousandths of the price are added to a BUY and taken from a SELL. */
  lemma FillsAreOffByBasisPoints(price: real, bps: real)
    ensures 10000.0 * (Slip(price, BUY, bps) - price) == bps * price
    ensures 10000.0 * (price - Slip(price, SELL, bps)) == bps * price
    ensures Slip(price, HOLD, bps) == price
  {
    var factor := bps / 10000.0;
    assert factor * 10000.0 == bps;
    assert price * (1.0 + factor) == price + price * factor;
    assert price * (1.0 - factor) == price - price * factor;
    assert 10000.0 * (price * factor) == (factor * 10000.0) * price;
  }

  /** Slippage never favours the trader. */
  lemma FillsNeverFavour(price: real, bps: real)
    requires price >= 0.0 && bps >= 0.0
    ensures Slip(price, BUY, bps) >= price >= Slip(price, SELL, bps)
  {
    FillsAreOffByBasisPoints(price, bps);
    Counterfactual.NonNegativeProduct(bps, price);
    hide Slip;
  }

  // ---------------------------------------------------------------- whole replays

  /** The same fills at another price. */
  function AtPrice(fills: seq<Fill>, price: real): (r: seq<Fill>)
    ensures |r| == |fills| && forall i :: 0 <= i < |r| ==> r[i] == fills[i].(price := price)
  {
    seq(|fills|, i requires 0 <= i < |fills| => fills[i].(price := price))
  }

  /** A replay's trades at the prices of their own rows, before slippage. */
  function Trades(tape: seq<TapeRow>, rules: Rules, bps: real): seq<Fill> {
    if tape == [] then []
    else
      var prefix, row := tape[..|tape| - 1], tape[|tape| - 1];
      Trades(prefix, rules, bps) + AtPrice(DayFills(Run(prefix, rules, bps), row, rules, bps), row.price)
  }

  /** Shares times price over all trades, bought or sold. */
  function Turnover(fills: seq<Fill>): real {
    if fills == [] then 0.0
    else Turnover(fills[..|fills| - 1]) + Worth(fills[|fills| - 1].price, fills[|fills| - 1].quantity)
  }

  lemma {:induction false} CashConcat(a: seq<Fill>, b: seq<Fill>)
    ensures Cash(a + b) == Cash(a) + Cash(b)
    ensures Turnover(a + b) == Turnover(a) + Turnover(b)
  {
    if b == [] {
      assert a + b == a;
    } else {
      hide CashOf, Worth;
      var n := |b| - 1;
      assert (a + b)[..|a + b| - 1] == a + b[..n];
      CashConcat(a, b[..n]);
    }
  }

  /** Every execution of a row fills at the row's price less slippage, a forced exit like any other. */
  lemma DayFillsAreSlipped(s: State, row: TapeRow, rules: Rules, bps: real)
    ensures forall f :: f in DayFills(s, row, rules, bps) ==>
              f.action != HOLD && f.price == Slip(row.price, f.action, bps)
  {
    hide Slip, AfterExit;
  }

  /** `fills` bring in `bps` ten-thousandths of the turnover less than `trades`. */
  predicate Costs(trades: seq<Fill>, fills: seq<Fill>, bps: real) {
    10000.0 * (Cash(trades) - Cash(fills)) == bps * Turnover(trades)
  }

  lemma NothingCostsNothing(bps: real)
    ensures Costs([], [], bps)
  {
    assert bps * 0.0 == 0.0;
  }

  lemma CostsAdd(a: seq<Fill>, b: seq<Fill>, c: seq<Fill>, d: seq<Fill>, bps: real)
    requires Costs(a, b, bps) && Costs(c, d, bps)
    ensures Costs(a + c, b + d, bps)
  {
    CashConcat(a, c);
    CashConcat(b, d);
    hide Cash, Turnover;
    AddShares(bps, Turnover(a), Turnover(c));
  }

  lemma AddShares(bps: real, x: real, y: real)
    ensures bps * (x + y) == bps * x + bps * y
  {
  }

  lemma OneFillCosts(f: Fill, price: real, bps: real)
    requires f.action != HOLD && f.price == Slip(price, f.action, bps)
    ensures Costs([f.(price := price)], [f], bps)
  {
    var trade := f.(price := price);
    FillGap(f, price, bps);
    hide Slip, CashOf, Worth;
    assert [trade][..0] == [] && [f][..0] == [];
    assert Cash([]) == 0.0 && Turnover([]) == 0.0;
    assert Cash([trade]) == CashOf(trade) && Cash([f]) == CashOf(f) && Turnover([trade]) == Worth(price, f.quantity);
    hide Cash, Turnover;
  }

  lemma FillGap(f: Fill, price: real, bps: real)
    requires f.action != HOLD && f.price == Slip(price, f.action, bps)
    ensures 10000.0 * (CashOf(f.(price := price)) - CashOf(f)) == bps * Worth(price, f.quantity)
  {
    FillsAreOffByBasisPoints(price, bps);
    hide Slip;
    var q := f.quantity as real;
    if f.action == BUY {
      assert -(price * q) + f.price * q == (f.price - price) * q;
      Regroup(f.price - price, q, price, bps);
    } else {
      assert price * q - f.price * q == (price - f.price) * q;
      Regroup(price - f.price, q, price, bps);
    }
  }

  lemma Regroup(gap: real, q: real, price: real, bps: real)
    requires 10000.0 * gap == bps * price
    ensures 10000.0 * (gap * q) == bps * (price * q)
  {
    assert (10000.0 * gap) * q == (bps * price) * q;
  }

  lemma {:induction false} SlippedFillsCost(fills: seq<Fill>, price: real, bps: real)
    requires forall f :: f in fills ==> f.action != HOLD && f.price == Slip(price, f.action, bps)
    ensures Costs(AtPrice(fills, price), fills, bps)
  {
    hide Costs, Slip;
    if fills == [] {
      NothingCostsNothing(bps);
    } else {
      var n := |fills| - 1;
      SlippedFillsCost(fills[..n], price, bps);
      OneFillCosts(fills[n], price, bps);
      assert AtPrice(fills, price) == AtPrice(fills[..n], price) + [fills[n].(price := price)];
      assert fills == fills[..n] + [fills[n]];
      CostsAdd(AtPrice(fills[..n], price), fills[..n], [fills[n].(price := price)], [fills[n]], bps);
    }
  }

  /** SLIPPAGE COSTS ITS SHARE OF THE TURNOVER. Over any tape, under any rules and forced exits
      included, the fills bring in exactly `bps` ten-thousandths of the turnover less than the same
      trades at the rows' own prices; and so does the mark-to-market. */
  lemma {:induction false} SlippageCostsItsShareOfTurnover(tape: seq<TapeRow>, rules: Rules, bps: real)
    ensures Costs(Trades(tape, rules, bps), Fills(tape, rules, bps), bps)
  {
    hide Costs, Slip, DayFills, Run, AtPrice;
    if tape == [] {
      NothingCostsNothing(bps);
    } else {
      var prefix, row := tape[..|tape| - 1], tape[|tape| - 1];
      var day := DayFills(Run(prefix, rules, bps), row, rules, bps);
      DayFillsAreSlipped(Run(prefix, rules, bps), row, rules, bps);
      SlippageCostsItsShareOfTurnover(prefix, rules, bps);
      SlippedFillsCost(day, row.price, bps);
      CostsAdd(Trades(prefix, rules, bps), Fills(prefix, rules, bps), AtPrice(day, row.price), day, bps);
    }
  }

  /** The mark-to-market of a replay: its trades at the rows' own prices, the shares it holds, and the
      slippage on its turnover. */
  lemma MarkToMarketLosesSlippage(tape: seq<TapeRow>, rules: Rules, bps: real, last: real)
    ensures
      var trades, s := Trades(tape, rules, bps), Run(tape, rules, bps);
      10000.0 * (Cash(trades) + Worth(last, Held(s.lots)) - MarkToMarket(s, last)) == bps * Turnover(trades)
  {
    hide MarkToMarket, Cash, Turnover, Run, Worth, Trades, Fills;
    MarkToMarketIsCashFlow(tape, rules, bps, last);
    SlippageCostsItsShareOfTurnover(tape, rules, bps);
  }

  // ---------------------------------------------------------------- what the counters count

  function Count(fills: seq<Fill>, action: Action): nat {
    if fills == [] then 0
    else Count(fills[..|fills| - 1], action) + if fills[|fills| - 1].action == action then 1 else 0
  }

  /** Shares bought less shares sold. */
  function Net(fills: seq<Fill>): int {
    if fills == [] then 0
    else
      var f := fills[|fills| - 1];
      Net(fills[..|fills| - 1]) + match f.action case BUY => f.quantity case SELL => -f.quantity case HOLD => 0
  }

  predicate Tallied(s: State, fills: seq<Fill>) {
    s.buys == Count(fills, BUY) && s.sells == Count(fills, SELL) && Held(s.lots) == Net(fills)
  }

  lemma ExecuteTallies(s: State, fills: seq<Fill>, f: Fill)
    requires Sound(s) && Fits(s, f) && Tallied(s, fills)
    ensures Tallied(Execute(s, f), fills + [f])
  {
    hide SellFifo, Sound, Held;
    ExecuteKeepsSound(s, f);
    assert (fills + [f])[..|fills|] == fills;
  }

  lemma DayTallies(s: State, fills: seq<Fill>, row: TapeRow, rules: Rules, bps: real)
    requires Sound(s) && Tallied(s, fills)
    ensures Tallied(Step(s, row, rules, bps), fills + DayFills(s, row, rules, bps))
  {
    DayKeepsSound(s, row, rules, bps);
    var marked, mid := s.(peak := MarkPeak(s, row.price)), AfterExit(s, row, rules, bps);
    var exit, gate := Exit(marked, row, rules, bps), Gate(mid, row, rules, bps);
    var log := fills + if exit.Some? then [exit.value] else [];
    if exit.Some? {
      ExecuteTallies(marked, fills, exit.value);
    } else {
      assert log == fills;
    }
    assert Tallied(mid, log);
    var all := log + if gate.Trade? then [gate.fill] else [];
    if gate.Trade? {
      ExecuteTallies(mid, log, gate.fill);
    } else {
      assert all == log;
    }
    hide Execute, Sound, Exit, Gate, Count, Net;
    assert fills + DayFills(s, row, rules, bps) == all;
  }

  /** The replay's counters of buys and sells and its position are those of its fills. */
  lemma {:induction false} CountersCountFills(tape: seq<TapeRow>, rules: Rules, bps: real)
    ensures Tallied(Run(tape, rules, bps), Fills(tape, rules, bps))
  {
    if tape != [] {
      var prefix, row := tape[..|tape| - 1], tape[|tape| - 1];
      CountersCountFills(prefix, rules, bps);
      ReplayStaysSound(prefix, rules, bps);
      hide Step, DayFills, Tallied, Sound, FillsFit;
      DayTallies(Run(prefix, rules, bps), Fills(prefix, rules, bps), row, rules, bps);
    }
  }

  // ---------------------------------------------------------------- a round trip

  /** A day that fills at `price` before slippage: the open if there is one, else the analyst's price. */
  predicate FillsAround(d: DayInput, price: real) {
    d.rawPrice.Some? && price == if d.open.Some? then d.open.value else d.rawPrice.value
  }

  /** Buying n shares and selling them at one price costs the slippage of both trades, in the run and
      in the replay of its tape. */
  lemma RoundTripCostsTwiceTheSlippage(buy: DayInput, sell: DayInput, n: nat, price: real, bps: real,
                                       store: real -> real, column: real -> real)
    requires Counterfactual.ExactColumns(store, column)
    requires 1 <= n <= MAX_POSITION_QTY && (Limit(buy.risk).Some? ==> n <= Limit(buy.risk).value)
    requires buy.proposal == Proposal(BUY, n) && sell.proposal == Proposal(SELL, n)
    requires FillsAround(buy, price) && FillsAround(sell, price)
    ensures
      var run, replay := BookRun([buy, sell], bps, store), Run(TapeOf([buy, sell], column), VAR_RULES, bps);
      && run.Some? && run.value.lots == [] && replay.lots == []
      && 10000.0 * run.value.realized == -2.0 * (bps * price * n as real)
      && 10000.0 * replay.realized == -2.0 * (bps * price * n as real)
  {
    hide *;
    RoundTripBook(buy, sell, n, price, bps, store, column);
    Counterfactual.ReplayReproducesRun([buy, sell], bps, store, column);
    RoundTripPnl(price, Slip(price, BUY, bps), Slip(price, SELL, bps), bps, n);
  }

  lemma RoundTripBook(buy: DayInput, sell: DayInput, n: nat, price: real, bps: real, store: real -> real,
                      column: real -> real)
    requires Counterfactual.ExactColumns(store, column)
    requires 1 <= n <= MAX_POSITION_QTY && (Limit(buy.risk).Some? ==> n <= Limit(buy.risk).value)
    requires buy.proposal == Proposal(BUY, n) && sell.proposal == Proposal(SELL, n)
    requires FillsAround(buy, price) && FillsAround(sell, price)
    ensures BookRun([buy, sell], bps, store)
         == Some(Book([], Pnl(Slip(price, SELL, bps), Slip(price, BUY, bps), n), 1, n))
  {
    var entry, exit := Slip(price, BUY, bps), Slip(price, SELL, bps);
    hide Slip, Pnl, BookDay, Limit;
    BuyFirst(buy, n, entry, bps, store);
    SellAll(sell, n, entry, exit, bps, store);
    assert BookRun([], bps, store) == Some(EMPTY_BOOK);
    hide BookRun;
    Counterfactual.BookRunAppend([], buy, bps, store);
    Counterfactual.BookRunAppend([buy], sell, bps, store);
    assert [] + [buy] == [buy] && [buy] + [sell] == [buy, sell];
  }

  lemma BuyFirst(d: DayInput, n: nat, entry: real, bps: real, store: real -> real)
    requires 1 <= n <= MAX_POSITION_QTY && (Limit(d.risk).Some? ==> n <= Limit(d.risk).value)
    requires d.proposal == Proposal(BUY, n) && d.rawPrice.Some?
    requires entry == FillPrice(d, BUY, bps) && forall x :: store(x) == x
    ensures BookDay(EMPTY_BOOK, d, bps, store) == Some(Book([Lot(n, entry)], 0.0, 0, 0))
  {
    hide Slip, VarMaxQty;
    assert [] + [Lot(n, entry)] == [Lot(n, entry)];
  }

  lemma SellAll(d: DayInput, n: nat, entry: real, exit: real, bps: real, store: real -> real)
    requires 1 <= n && d.proposal == Proposal(SELL, n) && d.rawPrice.Some?
    requires exit == FillPrice(d, SELL, bps) && forall x :: store(x) == x
    ensures BookDay(Book([Lot(n, entry)], 0.0, 0, 0), d, bps, store) == Some(Book([], Pnl(exit, entry, n), 1, n))
  {
    var lots := [Lot(n, entry)];
    assert lots[1..] == [] && Held(lots) == n;
    SaleOfWholeLot(lots, n, exit, store);
    hide Slip, VarMaxQty, Pnl;
  }

  lemma RoundTripPnl(price: real, entry: real, exit: real, bps: real, n: nat)
    requires entry == Slip(price, BUY, bps) && exit == Slip(price, SELL, bps)
    ensures 10000.0 * Pnl(exit, entry, n) == -2.0 * (bps * price * n as real)
  {
    FillsAreOffByBasisPoints(price, bps);
    hide Slip;
    var q := n as real;
    assert 10000.0 * (exit - entry) == -2.0 * (bps * price);
    assert (10000.0 * (exit - entry)) * q == (-2.0 * (bps * price)) * q;
  }

  // ---------------------------------------------------------------- proposals

  /** Rows that propose a trade. */
  function Proposed(tape: seq<TapeRow>): nat {
    if tape == [] then 0
    else
      var row := tape[|tape| - 1];
      Proposed(tape[..|tape| - 1]) + if row.action != HOLD && row.qty.Some? && row.qty.value > 0 then 1 else 0
  }

  /** Forced exits of a tape: sales of everything that no proposal asked for. */
  function ForcedExits(tape: seq<TapeRow>, rules: Rules, bps: real): nat {
    if tape == [] then 0
    else
      var prefix, row := tape[..|tape| - 1], tape[|tape| - 1];
      var s := Run(prefix, rules, bps);
      ForcedExits(prefix, rules, bps)
        + if Held(s.lots) > 0 && Held(AfterExit(s, row, rules, bps).lots) == 0 then 1 else 0
  }

  lemma DayCounts(s: State, row: TapeRow, rules: Rules, bps: real)
    requires Sound(s)
    ensures
      var next := Step(s, row, rules, bps);
      next.buys + next.sells + next.blocked
      == s.buys + s.sells + s.blocked
         + (if Held(s.lots) > 0 && Held(AfterExit(s, row, rules, bps).lots) == 0 then 1 else 0)
         + if row.action != HOLD && row.qty.Some? && row.qty.value > 0 then 1 else 0
  {
    DayKeepsSound(s, row, rules, bps);
    var marked := s.(peak := MarkPeak(s, row.price));
    var exit := Exit(marked, row, rules, bps);
    if exit.Some? {
      ExecuteKeepsSound(marked, exit.value);
    }
    hide SellFifo, Sound, StopHit, BuyRefused, Slip;
  }

  /** Every proposed trade is either executed or counted as blocked: buys, sells and blocked rows together
      are the proposals and the forced exits. */
  lemma {:induction false} EveryProposalIsTradedOrBlocked(tape: seq<TapeRow>, rules: Rules, bps: real)
    ensures
      var s := Run(tape, rules, bps);
      s.buys + s.sells + s.blocked == Proposed(tape) + ForcedExits(tape, rules, bps)
  {
    if tape != [] {
      var prefix, row := tape[..|tape| - 1], tape[|tape| - 1];
      EveryProposalIsTradedOrBlocked(prefix, rules, bps);
      ReplayStaysSound(prefix, rules, bps);
      hide Step, AfterExit, Sound, FillsFit;
      DayCounts(Run(prefix, rules, bps), row, rules, bps);
    }
  }
}
