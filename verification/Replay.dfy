/** The offline replay: a recorded tape of proposals gated again, in memory, through the V1 cap,
    optionally the VaR limit, and four experimental rules. */
module Replay {
  import opened Trading
  import opened Lots
  import opened Dates

  datatype TapeRow = TapeRow(day: int, action: Action, qty: Option<int>, price: real, varMaxQty: Option<int>)

  datatype Rules = Rules(
    maxDrawdown: Option<real>,
    stopLoss: Option<real>,
    trailingStop: Option<real>,
    minDays: Option<int>,
    varBudget: bool)

  const V1_RULES := Rules(None, None, None, None, false)
  const VAR_RULES := Rules(None, None, None, None, true)

  datatype State = State(
    lots: seq<Lot>,
    realized: real,
    closed: nat,
    buys: nat,
    sells: nat,
    blocked: nat,
    peak: Option<real>,
    lastBuy: Option<int>)

  const START := State([], 0.0, 0, 0, 0, 0, None, None)

  function Exact(x: real): real { x }

  // ---------------------------------------------------------------- values of a position

  /** What the open lots would earn if sold at `price`. */
  function Unrealized(lots: seq<Lot>, price: real): real {
    if lots == [] then 0.0 else Pnl(price, lots[0].entry, lots[0].quantity) + Unrealized(lots[1..], price)
  }

  function MarkToMarket(s: State, price: real): real {
    s.realized + Unrealized(s.lots, price)
  }

  function Cost(lots: seq<Lot>): real {
    if lots == [] then 0.0 else lots[0].entry * lots[0].quantity as real + Cost(lots[1..])
  }

  function AvgEntry(lots: seq<Lot>): real {
    if Held(lots) == 0 then 0.0 else Cost(lots) / Held(lots) as real
  }

  // ---------------------------------------------------------------- the rules

  /** Fewer than `minDays` weekdays have passed since the last buy. */
  predicate BlockedBySpacing(today: int, lastBuy: Option<int>, minDays: Option<int>) {
    minDays.Some? && lastBuy.Some? && WeekdaysBetween(lastBuy.value, today) < minDays.value
  }

  /** `price` is at least `pct` percent below `reference`. */
  predicate DownBy(reference: real, price: real, pct: real)
    requires reference != 0.0
  {
    (reference - price) / reference * 100.0 >= pct
  }

  function MarkPeak(s: State, price: real): Option<real> {
    if Held(s.lots) == 0 then None
    else if s.peak.None? || price > s.peak.value then Some(price)
    else s.peak
  }

  predicate StopHit(s: State, price: real, rules: Rules) {
    && Held(s.lots) != 0
    && (|| (rules.stopLoss.Some? && AvgEntry(s.lots) > 0.0 && DownBy(AvgEntry(s.lots), price, rules.stopLoss.value))
        || (rules.trailingStop.Some? && s.peak.Some? && s.peak.value != 0.0
            && DownBy(s.peak.value, price, rules.trailingStop.value)))
  }

  function Quantity(row: TapeRow): int {
    if row.qty.Some? then row.qty.value else 0
  }

  function RowLimit(row: TapeRow, rules: Rules): Option<int> {
    if rules.varBudget then row.varMaxQty else None
  }

  predicate BuyRefused(s: State, row: TapeRow, rules: Rules) {
    var held := Held(s.lots);
    || held >= MAX_POSITION_QTY
    || (rules.maxDrawdown.Some? && held != 0 && AvgEntry(s.lots) > 0.0
        && DownBy(AvgEntry(s.lots), row.price, rules.maxDrawdown.value))
    || BlockedBySpacing(row.day, s.lastBuy, rules.minDays)
    || (RowLimit(row, rules).Some? && held >= Min(MAX_POSITION_QTY, RowLimit(row, rules).value))
  }

  function BuyCap(row: TapeRow, rules: Rules): int {
    if RowLimit(row, rules).Some? then Min(MAX_POSITION_QTY, RowLimit(row, rules).value) else MAX_POSITION_QTY
  }

  datatype Outcome = Skip | Blocked | Trade(fill: Fill)

  function Gate(s: State, row: TapeRow, rules: Rules, bps: real): Outcome {
    var qty, held := Quantity(row), Held(s.lots);
    if row.action == HOLD || qty <= 0 then Skip
    else if row.action == BUY then
      if BuyRefused(s, row, rules) then Blocked
      else Trade(Fill(BUY, Min(qty, BuyCap(row, rules) - held), Slip(row.price, BUY, bps)))
    else if held == 0 then Blocked
    else Trade(Fill(SELL, Min(qty, held), Slip(row.price, SELL, bps)))
  }

  /** The forced exit of a day, if a stop fires: the whole position at the day's price. */
  function Exit(s: State, row: TapeRow, rules: Rules, bps: real): Option<Fill> {
    if StopHit(s, row.price, rules) then Some(Fill(SELL, Held(s.lots), Slip(row.price, SELL, bps))) else None
  }

  function Execute(s: State, f: Fill): State {
    match f.action
    case BUY => s.(lots := s.lots + [Lot(f.quantity, f.price)], buys := s.buys + 1)
    case SELL =>
      var sale := SellFifo(s.lots, f.quantity, f.price, Exact);
      s.(lots := sale.lots, realized := s.realized + (sale.realized - COMMISSION), closed := s.closed + sale.closed,
         sells := s.sells + 1)
    case HOLD => s
  }

  function AfterExit(s: State, row: TapeRow, rules: Rules, bps: real): State {
    var marked := s.(peak := MarkPeak(s, row.price));
    match Exit(marked, row, rules, bps)
    case None => marked
    case Some(fill) => Execute(marked, fill).(peak := None)
  }

  function AfterGate(s: State, row: TapeRow, rules: Rules, bps: real): State {
    match Gate(s, row, rules, bps)
    case Skip => s
    case Blocked => s.(blocked := s.blocked + 1)
    case Trade(fill) =>
      if fill.action == BUY then Execute(s, fill).(lastBuy := Some(row.day)) else Execute(s, fill)
  }

  function Step(s: State, row: TapeRow, rules: Rules, bps: real): State {
    AfterGate(AfterExit(s, row, rules, bps), row, rules, bps)
  }

  function Run(tape: seq<TapeRow>, rules: Rules, bps: real): State {
    if tape == [] then START
    else Step(Run(tape[..|tape| - 1], rules, bps), tape[|tape| - 1], rules, bps)
  }

  lemma RunAppend(tape: seq<TapeRow>, row: TapeRow, rules: Rules, bps: real)
    ensures Run(tape + [row], rules, bps) == Step(Run(tape, rules, bps), row, rules, bps)
  {
    hide Step;
    assert (tape + [row])[..|tape|] == tape;
  }

  // ---------------------------------------------------------------- safety

  predicate Sound(s: State) {
    Positive(s.lots) && 0 <= Held(s.lots) <= MAX_POSITION_QTY
  }

  /** A fill the position can take. */
  predicate Fits(s: State, f: Fill) {
    && f.action != HOLD
    && 0 < f.quantity
    && (f.action == BUY ==> Held(s.lots) + f.quantity <= MAX_POSITION_QTY)
    && (f.action == SELL ==> f.quantity <= Held(s.lots))
  }

  lemma {:induction false} HeldNonNegative(lots: seq<Lot>)
    requires Positive(lots)
    ensures 0 <= |lots| <= Held(lots)
  {
    if lots != [] {
      HeldNonNegative(lots[1..]);
    }
  }

  lemma ExecuteKeepsSound(s: State, f: Fill)
    requires Sound(s) && Fits(s, f)
    ensures Sound(Execute(s, f))
    ensures Held(Execute(s, f).lots) == Held(s.lots) + if f.action == BUY then f.quantity else -f.quantity
  {
    if f.action == BUY {
      HeldConcat(s.lots, [Lot(f.quantity, f.price)]);
    } else {
      SaleDropsOldestShares(s.lots, f.quantity, f.price, Exact);
    }
  }

  /** Neither the day's forced exit, which sells the whole position, nor its trade asks for more
      shares than are held or may be held. */
  predicate FillsFit(s: State, row: TapeRow, rules: Rules, bps: real) {
    var marked, mid := s.(peak := MarkPeak(s, row.price)), AfterExit(s, row, rules, bps);
    var exit, gate := Exit(marked, row, rules, bps), Gate(mid, row, rules, bps);
    && (exit.Some? ==> Fits(marked, exit.value) && exit.value.quantity == Held(s.lots))
    && (gate.Trade? ==> Fits(mid, gate.fill))
  }

  lemma DayKeepsSound(s: State, row: TapeRow, rules: Rules, bps: real)
    requires Sound(s)
    ensures FillsFit(s, row, rules, bps)
    ensures Sound(AfterExit(s, row, rules, bps))
    ensures Sound(Step(s, row, rules, bps))
  {
    var marked := s.(peak := MarkPeak(s, row.price));
    if Exit(marked, row, rules, bps).Some? {
      ExecuteKeepsSound(marked, Exit(marked, row, rules, bps).value);
    }
    var mid := AfterExit(s, row, rules, bps);
    if Gate(mid, row, rules, bps).Trade? {
      ExecuteKeepsSound(mid, Gate(mid, row, rules, bps).fill);
    }
  }

  /** Under any combination of rules the position stays between 0 and the cap and every lot
      holds shares after every tape, and whatever row comes next, no sale of it asks for more than
      is held. */
  lemma {:induction false} ReplayStaysSound(tape: seq<TapeRow>, rules: Rules, bps: real)
    ensures Sound(Run(tape, rules, bps))
    ensures forall row :: FillsFit(Run(tape, rules, bps), row, rules, bps)
  {
    if tape != [] {
      ReplayStaysSound(tape[..|tape| - 1], rules, bps);
      DayKeepsSound(Run(tape[..|tape| - 1], rules, bps), tape[|tape| - 1], rules, bps);
    }
    forall row ensures FillsFit(Run(tape, rules, bps), row, rules, bps) {
      DayKeepsSound(Run(tape, rules, bps), row, rules, bps);
    }
  }

  lemma ExecuteCountsRows(s: State, f: Fill)
    requires Sound(s) && Fits(s, f)
    requires s.closed + |s.lots| <= s.buys + s.sells
    ensures var t := Execute(s, f); t.closed + |t.lots| <= t.buys + t.sells
  {
    if f.action == SELL {
      var whole, short := SaleTouchesLotsInOrder(s.lots, f.quantity, f.price, Exact);
    }
  }

  /** Each SELL splits at most one lot, so CLOSED rows and open lots together never outnumber
      the trades. */
  lemma {:induction false} ClosedRowsBoundedByTrades(tape: seq<TapeRow>, rules: Rules, bps: real)
    ensures var s := Run(tape, rules, bps); s.closed + |s.lots| <= s.buys + s.sells
  {
    if tape != [] {
      var prefix, row := tape[..|tape| - 1], tape[|tape| - 1];
      var s := Run(prefix, rules, bps);
      ReplayStaysSound(prefix, rules, bps);
      ClosedRowsBoundedByTrades(prefix, rules, bps);
      DayKeepsSound(s, row, rules, bps);
      var marked := s.(peak := MarkPeak(s, row.price));
      if Exit(marked, row, rules, bps).Some? {
        ExecuteCountsRows(marked, Exit(marked, row, rules, bps).value);
      }
      var mid := AfterExit(s, row, rules, bps);
      if Gate(mid, row, rules, bps).Trade? {
        ExecuteCountsRows(mid, Gate(mid, row, rules, bps).fill);
      }
    }
  }

  // ---------------------------------------------------------------- conservation

  function Worth(price: real, quantity: int): real {
    price * quantity as real
  }

  /** Money a fill brings in: sale proceeds less commission, or minus the purchase cost. */
  function CashOf(f: Fill): real {
    match f.action
    case BUY => -Worth(f.price, f.quantity)
    case SELL => Worth(f.price, f.quantity) - COMMISSION
    case HOLD => 0.0
  }

  function Cash(fills: seq<Fill>): real {
    if fills == [] then 0.0 else Cash(fills[..|fills| - 1]) + CashOf(fills[|fills| - 1])
  }

  /** The executions of one day, in order: the forced exit, then the gated proposal. */
  function DayFills(s: State, row: TapeRow, rules: Rules, bps: real): seq<Fill> {
    var exit := Exit(s.(peak := MarkPeak(s, row.price)), row, rules, bps);
    var gate := Gate(AfterExit(s, row, rules, bps), row, rules, bps);
    (if exit.Some? then [exit.value] else []) + (if gate.Trade? then [gate.fill] else [])
  }

  function Fills(tape: seq<TapeRow>, rules: Rules, bps: real): seq<Fill> {
    if tape == [] then []
    else
      var prefix := tape[..|tape| - 1];
      Fills(prefix, rules, bps) + DayFills(Run(prefix, rules, bps), tape[|tape| - 1], rules, bps)
  }

  lemma {:induction false} UnrealizedConcat(a: seq<Lot>, b: seq<Lot>, price: real)
    ensures Unrealized(a + b, price) == Unrealized(a, price) + Unrealized(b, price)
  {
    if a == [] {
      assert a + b == b;
    } else {
      assert (a + b)[1..] == a[1..] + b;
      UnrealizedConcat(a[1..], b, price);
    }
  }

  lemma PnlShift(price: real, last: real, entry: real, q: int)
    ensures Pnl(price, entry, q) == Pnl(last, entry, q) + Pnl(price, last, q)
  {
  }

  lemma PnlSplit(price: real, entry: real, a: int, b: int)
    ensures Pnl(price, entry, a + b) == Pnl(price, entry, a) + Pnl(price, entry, b)
  {
  }

  /** A sale moves value from unrealized to realized; only the price differs from `last`. */
  lemma {:induction false} SaleConservesValue(lots: seq<Lot>, n: nat, price: real, last: real)
    requires Positive(lots) && n <= Held(lots)
    ensures
      var sale := SellFifo(lots, n, price, Exact);
      sale.realized + Unrealized(sale.lots, last) == Unrealized(lots, last) + Pnl(price, last, n)
    decreases |lots|
  {
    if n == 0 {
    } else if n >= lots[0].quantity {
      var q := lots[0].quantity;
      SaleOfWholeLot(lots, n, price, Exact);
      SaleConservesValue(lots[1..], n - q, price, last);
      PnlShift(price, last, lots[0].entry, q);
      PnlSplit(price, last, q, n - q);
    } else {
      SaleSplitsLot(lots, n, price, Exact);
      PnlShift(price, last, lots[0].entry, n);
      PnlSplit(last, lots[0].entry, n, lots[0].quantity - n);
    }
  }

  /** The value a state has beyond its shares at the marking price. */
  function NetValue(s: State, last: real): real {
    MarkToMarket(s, last) - Worth(last, Held(s.lots))
  }

  lemma WorthSplit(price: real, a: int, b: int)
    ensures Worth(price, a + b) == Worth(price, a) + Worth(price, b)
  {
  }

  lemma PnlIsWorth(price: real, entry: real, q: int)
    ensures Pnl(price, entry, q) == Worth(price, q) - Worth(entry, q)
  {
  }

  lemma BuyConservesValue(s: State, f: Fill, last: real)
    requires f.action == BUY
    ensures NetValue(Execute(s, f), last) == NetValue(s, last) + CashOf(f)
  {
    hide Pnl, Worth;
    var lot := Lot(f.quantity, f.price);
    HeldConcat(s.lots, [lot]);
    UnrealizedConcat(s.lots, [lot], last);
    assert Unrealized([lot], last) == Pnl(last, f.price, f.quantity);
    PnlIsWorth(last, f.price, f.quantity);
    WorthSplit(last, Held(s.lots), f.quantity);
  }

  lemma SellConservesValue(s: State, f: Fill, last: real)
    requires Sound(s) && Fits(s, f) && f.action == SELL
    ensures NetValue(Execute(s, f), last) == NetValue(s, last) + CashOf(f)
  {
    hide Pnl, Worth;
    ExecuteKeepsSound(s, f);
    SaleConservesValue(s.lots, f.quantity, f.price, last);
    PnlIsWorth(f.price, last, f.quantity);
    WorthSplit(last, Held(s.lots) - f.quantity, f.quantity);
  }

  lemma CashAppend(fills: seq<Fill>, f: Fill)
    ensures Cash(fills + [f]) == Cash(fills) + CashOf(f)
  {
    assert (fills + [f])[..|fills|] == fills;
  }

  lemma ExitConservesValue(s: State, row: TapeRow, rules: Rules, bps: real, last: real)
    requires Sound(s)
    ensures
      var exit := Exit(s.(peak := MarkPeak(s, row.price)), row, rules, bps);
      NetValue(AfterExit(s, row, rules, bps), last)
        == NetValue(s, last) + if exit.Some? then CashOf(exit.value) else 0.0
  {
    DayKeepsSound(s, row, rules, bps);
    var marked := s.(peak := MarkPeak(s, row.price));
    var exit := Exit(marked, row, rules, bps);
    hide Worth, Pnl, SellFifo, CashOf;
    if exit.Some? {
      SellConservesValue(marked, exit.value, last);
    }
  }

  lemma GateConservesValue(s: State, row: TapeRow, rules: Rules, bps: real, last: real)
    requires Sound(s)
    requires Gate(s, row, rules, bps).Trade? ==> Fits(s, Gate(s, row, rules, bps).fill)
    ensures
      var gate := Gate(s, row, rules, bps);
      NetValue(AfterGate(s, row, rules, bps), last)
        == NetValue(s, last) + if gate.Trade? then CashOf(gate.fill) else 0.0
  {
    hide Worth, Pnl, SellFifo, CashOf;
    var gate := Gate(s, row, rules, bps);
    if gate.Trade? && gate.fill.action == BUY {
      BuyConservesValue(s, gate.fill, last);
    } else if gate.Trade? {
      SellConservesValue(s, gate.fill, last);
    }
  }

  lemma DayCash(fills: seq<Fill>, s: State, row: TapeRow, rules: Rules, bps: real)
    ensures
      var exit := Exit(s.(peak := MarkPeak(s, row.price)), row, rules, bps);
      var gate := Gate(AfterExit(s, row, rules, bps), row, rules, bps);
      Cash(fills + DayFills(s, row, rules, bps))
        == Cash(fills) + (if exit.Some? then CashOf(exit.value) else 0.0)
           + if gate.Trade? then CashOf(gate.fill) else 0.0
  {
    hide CashOf, Execute, AfterExit, Gate, Exit;
    var exit := Exit(s.(peak := MarkPeak(s, row.price)), row, rules, bps);
    var gate := Gate(AfterExit(s, row, rules, bps), row, rules, bps);
    var log := fills + if exit.Some? then [exit.value] else [];
    if exit.Some? {
      CashAppend(fills, exit.value);
    } else {
      assert log == fills;
    }
    var all := log + if gate.Trade? then [gate.fill] else [];
    if gate.Trade? {
      CashAppend(log, gate.fill);
    } else {
      assert all == log;
    }
    assert fills + DayFills(s, row, rules, bps) == all;
  }

  /** Realized plus unrealized is what was taken in minus what was paid, plus the shares held at
      the marking price: on every tape, under every rule, whichever lots the sales matched. */
  lemma {:induction false} MarkToMarketIsCashFlow(tape: seq<TapeRow>, rules: Rules, bps: real, last: real)
    ensures MarkToMarket(Run(tape, rules, bps), last)
         == Cash(Fills(tape, rules, bps)) + Worth(last, Held(Run(tape, rules, bps).lots))
  {
    if tape != [] {
      var prefix, row := tape[..|tape| - 1], tape[|tape| - 1];
      var s := Run(prefix, rules, bps);
      MarkToMarketIsCashFlow(prefix, rules, bps, last);
      ReplayStaysSound(prefix, rules, bps);
      DayKeepsSound(s, row, rules, bps);
      hide CashOf, AfterExit, AfterGate, Gate, Exit, Worth, DayFills;
      ExitConservesValue(s, row, rules, bps, last);
      GateConservesValue(AfterExit(s, row, rules, bps), row, rules, bps, last);
      DayCash(Fills(prefix, rules, bps), s, row, rules, bps);
    }
  }
}
