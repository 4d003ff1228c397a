/** No look-ahead over a whole run: decisions through a day depend only on what had closed or been
    published before that day's decision time. */
module Causality {
  import opened Trading
  import opened Lots
  import opened RiskGate
  import opened Dates
  import opened Ledger
  import opened Engine
  import opened DayTransaction
  import Replay
  import opened MarketData
  import opened OpenPrices
  import opened OrderStatistics
  import opened Reals

  /** Everything stored about one symbol, later data included. */
  datatype Market = Market(bars: seq<Bar>, headlines: seq<Headline>, opens: int -> Option<real>)

  /** The analysts and the Portfolio Manager as functions of what they are shown. */
  datatype Agents = Agents(
    currentPrice: seq<Bar> -> Option<real>,
    propose: (seq<Bar>, seq<Headline>) -> Proposal)

  const TECHNICAL_LOOKBACK_DAYS := 40
  const HEADLINE_LOOKBACK_DAYS := 3
  const VAR_LOOKBACK_DAYS := 400
  const CONFIDENCE: real := 0.95
  const VAR_WINDOW := 250

  /** Simple returns between consecutive closes. */
  function SimpleReturns(bars: seq<Bar>): seq<real> {
    if |bars| < 2 then []
    else
      var n := |bars| - 1;
      SimpleReturns(bars[..n]) + [bars[n].close / bars[n - 1].close - 1.0]
  }

  function RiskInput(bars: seq<Bar>): VarInput {
    match HistoricalVar(SimpleReturns(bars), CONFIDENCE, VAR_WINDOW)
    case None => NoHistory
    case Some(v) => Known(v)
  }

  function VisibleHeadlines(z: Zone, m: Market, asOf: int): seq<Headline> {
    Filter(m.headlines, h => Recent(z, h, asOf, HEADLINE_LOOKBACK_DAYS))
  }

  /** What the graph computes for a day, and the open the day is filled at. */
  function InputAt(z: Zone, m: Market, agents: Agents, day: int): DayInput {
    var asOf := AsOf(day);
    var bars := Fetch(z, m.bars, asOf, TECHNICAL_LOOKBACK_DAYS);
    DayInput(day, agents.propose(bars, VisibleHeadlines(z, m, asOf)), agents.currentPrice(bars), m.opens(day),
             RiskInput(Fetch(z, m.bars, asOf, VAR_LOOKBACK_DAYS)))
  }

  function InputsAt(z: Zone, m: Market, agents: Agents, days: seq<int>): (inputs: seq<DayInput>)
    ensures |inputs| == |days| && forall i :: 0 <= i < |days| ==> inputs[i] == InputAt(z, m, agents, days[i])
  {
    seq(|days|, i requires 0 <= i < |days| => InputAt(z, m, agents, days[i]))
  }

  /** Same closed bars and same available headlines at a day's decision time. */
  ghost predicate SameKnowledge(z: Zone, a: Market, b: Market, asOf: int) {
    && ClosedBars(z, a.bars, asOf) == ClosedBars(z, b.bars, asOf)
    && Filter(a.headlines, h => AvailableAt(z, h) < asOf) == Filter(b.headlines, h => AvailableAt(z, h) < asOf)
  }

  lemma FetchFromKnown(z: Zone, bars: seq<Bar>, asOf: int, lookback: int, known: int)
    requires asOf <= known
    ensures Fetch(z, bars, asOf, lookback)
         == Filter(ClosedBars(z, bars, known), b => Stamped(b, asOf, lookback) && ClosedAt(z, b) <= asOf)
  {
    hide Stamped, ClosedAt, Filter;
    var weak := (b: Bar) => Stamped(b, asOf, lookback);
    var strong := (b: Bar) => Stamped(b, asOf, lookback) && ClosedAt(z, b) <= asOf;
    var closed := (b: Bar) => ClosedAt(z, b) <= asOf;
    FilterTwice(bars, b => ClosedAt(z, b) <= known, strong);
    FilterTwiceMeets(bars, weak, closed, strong);
  }

  lemma {:induction false} FilterTwiceMeets<T(!new)>(xs: seq<T>, p: T -> bool, q: T -> bool, both: T -> bool)
    requires forall x :: both(x) <==> p(x) && q(x)
    ensures Filter(Filter(xs, p), q) == Filter(xs, both)
  {
    if xs != [] {
      FilterTwiceMeets(xs[1..], p, q, both);
      var rest := Filter(xs[1..], p);
      assert p(xs[0]) ==> ([xs[0]] + rest)[1..] == rest;
      assert !p(xs[0]) ==> Filter(xs, p) == rest;
    }
  }

  /** What a day's agents and risk node are handed is a function of what was known by any later
      time. */
  lemma KnowledgeDecidesInputs(z: Zone, a: Market, b: Market, agents: Agents, day: int, known: int)
    requires SameKnowledge(z, a, b, known) && AsOf(day) <= known
    ensures InputAt(z, a, agents, day).(open := None) == InputAt(z, b, agents, day).(open := None)
  {
    var asOf := AsOf(day);
    FetchFromKnown(z, a.bars, asOf, TECHNICAL_LOOKBACK_DAYS, known);
    FetchFromKnown(z, b.bars, asOf, TECHNICAL_LOOKBACK_DAYS, known);
    FetchFromKnown(z, a.bars, asOf, VAR_LOOKBACK_DAYS, known);
    FetchFromKnown(z, b.bars, asOf, VAR_LOOKBACK_DAYS, known);
    var weak := (h: Headline) => AvailableAt(z, h) < known;
    var strong := (h: Headline) => Recent(z, h, asOf, HEADLINE_LOOKBACK_DAYS);
    FilterTwice(a.headlines, weak, strong);
    FilterTwice(b.headlines, weak, strong);
    hide Fetch, Filter, RiskInput, ClosedBars;
  }

  // ---------------------------------------------------------------- decisions of a run

  /** The decision recorded for a day, given the book before it. */
  function DecisionOn(days: seq<DayInput>, i: nat, bps: real, store: real -> real): Option<Ruling>
    requires i < |days|
  {
    match BookRun(days[..i], bps, store)
    case None => None
    case Some(b) => Some(RulingOf(days[i], Held(b.lots)))
  }

  /** Same inputs except for what the days fill at. */
  ghost predicate SameButPrices(a: seq<DayInput>, b: seq<DayInput>) {
    |a| == |b| && forall i :: 0 <= i < |a| ==> a[i].(open := None) == b[i].(open := None)
  }

  /** The same lots but for their entry prices. */
  predicate SameShape(a: seq<Lot>, b: seq<Lot>) {
    |a| == |b| && forall i :: 0 <= i < |a| ==> a[i].quantity == b[i].quantity
  }

  /** The same books but for money: lots in order and quantity, CLOSED rows and their shares. */
  predicate SameShares(a: Book, b: Book) {
    SameShape(a.lots, b.lots) && a.closed == b.closed && a.closedShares == b.closedShares
  }

  lemma {:induction false} SameShapeHoldsTheSame(a: seq<Lot>, b: seq<Lot>)
    requires SameShape(a, b)
    ensures Held(a) == Held(b)
  {
    if a != [] {
      SameShapeHoldsTheSame(a[1..], b[1..]);
    }
  }

  lemma {:induction false} SaleKeepsShape(a: seq<Lot>, b: seq<Lot>, n: nat, priceA: real, priceB: real,
                                          keepA: real -> real, keepB: real -> real)
    requires SameShape(a, b) && Positive(a) && n <= Held(a)
    ensures
      var saleA, saleB := SellFifo(a, n, priceA, keepA), SellFifo(b, n, priceB, keepB);
      SameShape(saleA.lots, saleB.lots) && saleA.closed == saleB.closed
    decreases |a|
  {
    if n > 0 {
      if n >= a[0].quantity {
        SaleOfWholeLot(a, n, priceA, keepA);
        SaleOfWholeLot(b, n, priceB, keepB);
        hide SellFifo;
        SaleKeepsShape(a[1..], b[1..], n - a[0].quantity, priceA, priceB, keepA, keepB);
      } else {
        SaleSplitsLot(a, n, priceA, keepA);
        SaleSplitsLot(b, n, priceB, keepB);
        hide SellFifo;
      }
    }
  }

  lemma DayKeepsShares(a: Book, b: Book, da: DayInput, db: DayInput, bpsA: real, bpsB: real,
                       storeA: real -> real, storeB: real -> real)
    requires Within(a) && Within(b) && SameShares(a, b) && da.(open := None) == db.(open := None)
    ensures BookDay(a, da, bpsA, storeA).Some? && BookDay(b, db, bpsB, storeB).Some?
    ensures SameShares(BookDay(a, da, bpsA, storeA).value, BookDay(b, db, bpsB, storeB).value)
  {
    DayKeepsBookWithin(a, da, bpsA, storeA);
    DayKeepsBookWithin(b, db, bpsB, storeB);
    SameShapeHoldsTheSame(a.lots, b.lots);
    var r := RulingOf(da, Held(a.lots));
    assert r == RulingOf(db, Held(b.lots));
    if da.rawPrice.Some? && r.action == SELL && 0 < r.quantity <= Held(a.lots) {
      SaleKeepsShape(a.lots, b.lots, r.quantity, FillPrice(da, SELL, bpsA), FillPrice(db, SELL, bpsB), storeA, storeB);
    }
    hide SellFifo, RulingOf, Held, Change;
  }

  /** Fill prices move money, not shares: two runs that differ only in fill prices, slippage and
      rounding hold the same lots and write the same rows, prices apart, throughout. */
  lemma {:induction false} PricesDoNotMovePositions(a: seq<DayInput>, b: seq<DayInput>, bpsA: real, bpsB: real,
                                                    storeA: real -> real, storeB: real -> real)
    requires SameButPrices(a, b)
    ensures BookRun(a, bpsA, storeA).Some? && BookRun(b, bpsB, storeB).Some?
    ensures SameShares(BookRun(a, bpsA, storeA).value, BookRun(b, bpsB, storeB).value)
    ensures Held(BookRun(a, bpsA, storeA).value.lots) == Held(BookRun(b, bpsB, storeB).value.lots)
  {
    if a != [] {
      var n := |a| - 1;
      PricesDoNotMovePositions(a[..n], b[..n], bpsA, bpsB, storeA, storeB);
      RunStaysWithin(a[..n], bpsA, storeA);
      RunStaysWithin(b[..n], bpsB, storeB);
      var bookA, bookB := BookRun(a[..n], bpsA, storeA).value, BookRun(b[..n], bpsB, storeB).value;
      hide BookDay, SameShares, Within;
      assert a[n].(open := None) == b[n].(open := None);
      DayKeepsShares(bookA, bookB, a[n], b[n], bpsA, bpsB, storeA, storeB);
    }
    RunSharesHoldTheSame(BookRun(a, bpsA, storeA).value, BookRun(b, bpsB, storeB).value);
  }

  lemma RunSharesHoldTheSame(a: Book, b: Book)
    requires SameShares(a, b)
    ensures Held(a.lots) == Held(b.lots)
  {
    SameShapeHoldsTheSame(a.lots, b.lots);
  }

  lemma SameInputsThrough(z: Zone, a: Market, b: Market, agents: Agents, days: seq<int>, j: nat)
    requires StrictlyIncreasing(days) && j < |days|
    requires SameKnowledge(z, a, b, AsOf(days[j]))
    ensures SameButPrices(InputsAt(z, a, agents, days)[..j + 1], InputsAt(z, b, agents, days)[..j + 1])
  {
    var before, after := InputsAt(z, a, agents, days), InputsAt(z, b, agents, days);
    hide SameKnowledge, InputAt, InputsAt;
    forall k | 0 <= k <= j ensures before[k].(open := None) == after[k].(open := None) {
      assert days[k] <= days[j];
      KnowledgeDecidesInputs(z, a, b, agents, days[k], AsOf(days[j]));
    }
  }

  /** CAUSALITY. If two histories agree on the bars closed and the headlines available before the
      decision on a day, every decision of a run through that day is the same in both, whatever
      later bars, later headlines, fill prices or slippage say. */
  lemma DecisionsAreCausal(z: Zone, a: Market, b: Market, agents: Agents, days: seq<int>, i: nat, j: nat,
                           bpsA: real, bpsB: real, storeA: real -> real, storeB: real -> real)
    requires StrictlyIncreasing(days) && i <= j < |days|
    requires SameKnowledge(z, a, b, AsOf(days[j]))
    ensures DecisionOn(InputsAt(z, a, agents, days), i, bpsA, storeA).Some?
    ensures DecisionOn(InputsAt(z, a, agents, days), i, bpsA, storeA)
        == DecisionOn(InputsAt(z, b, agents, days), i, bpsB, storeB)
  {
    SameInputsThrough(z, a, b, agents, days, j);
    var before, after := InputsAt(z, a, agents, days), InputsAt(z, b, agents, days);
    hide InputAt, InputsAt, SameKnowledge, Limit, BookRun;
    var wholeA, wholeB := before[..j + 1], after[..j + 1];
    assert wholeA[i].(open := None) == wholeB[i].(open := None);
    assert before[..i] == wholeA[..i] && after[..i] == wholeB[..i];
    PricesDoNotMovePositions(before[..i], after[..i], bpsA, bpsB, storeA, storeB);
  }

  // ---------------------------------------------------------------- the committed backtest

  /** A backtest of several symbols, each with its own market and agents. */
  ghost predicate DrawsOn(cfg: Config, z: Zone, markets: string -> Market, agents: string -> Agents) {
    forall day, symbol :: cfg.inputs(day, symbol) == InputAt(z, markets(symbol), agents(symbol), day)
  }

  /** A tape without its prices. */
  function Unpriced(tape: seq<Replay.TapeRow>): (r: seq<Replay.TapeRow>)
    ensures |r| == |tape| && forall i :: 0 <= i < |r| ==> r[i] == tape[i].(price := 0.0)
  {
    seq(|tape|, i requires 0 <= i < |tape| => tape[i].(price := 0.0))
  }

  lemma {:induction false} SameUnpricedTapes(a: seq<DayInput>, b: seq<DayInput>, columnA: real -> real,
                                             columnB: real -> real)
    requires SameButPrices(a, b)
    ensures Unpriced(TapeOf(a, columnA)) == Unpriced(TapeOf(b, columnB))
  {
    if a != [] {
      var n := |a| - 1;
      SameUnpricedTapes(a[..n], b[..n], columnA, columnB);
      assert a[n].(open := None) == b[n].(open := None);
      hide Limit;
    }
  }

  lemma {:induction false} StoredInputs(cfg: Config, z: Zone, markets: string -> Market, agents: string -> Agents,
                                        symbol: string, m: nat)
    requires DrawsOn(cfg, z, markets, agents) && m <= |cfg.calendar|
    ensures InputsOf(cfg, symbol, m) == InputsAt(z, markets(symbol), agents(symbol), cfg.calendar)[..m]
  {
    hide InputAt, InputOf, InputsAt, DrawsOn;
    if m > 0 {
      StoredInputs(cfg, z, markets, agents, symbol, m - 1);
      StoredInput(cfg, z, markets, agents, symbol, cfg.calendar[m - 1]);
      var inputs := InputsAt(z, markets(symbol), agents(symbol), cfg.calendar);
      assert inputs[..m] == inputs[..m - 1] + [inputs[m - 1]];
    }
  }

  lemma StoredInput(cfg: Config, z: Zone, markets: string -> Market, agents: string -> Agents, symbol: string, day: int)
    requires DrawsOn(cfg, z, markets, agents)
    ensures InputOf(cfg, day, symbol) == InputAt(z, markets(symbol), agents(symbol), day)
  {
    assert InputAt(z, markets(symbol), agents(symbol), day).day == day;
    hide InputAt;
  }

  /** What is committed of a symbol after m days that went through: its book and its tape are those of its own run. */
  lemma CommittedAre(cfg: Config, symbol: string, m: nat, inputs: seq<DayInput>)
    requires Valid(cfg) && symbol in cfg.symbols && m <= |cfg.calendar| && inputs == InputsOf(cfg, symbol, m)
    requires AfterDays(cfg, m).Some?
    ensures BookRun(inputs, cfg.bps, cfg.store) == Some(BookOf(AfterDays(cfg, m).value.outcomes, KeyOf(cfg, symbol)))
    ensures TapeQuery(AfterDays(cfg, m).value.decisions, symbol) == TapeOf(inputs, cfg.column)
  {
    StoreIsHistory(cfg, m);
    assert SymbolHistory(cfg, AfterDays(cfg, m).value, m, symbol);
    hide AfterDays, BookRun, TapeQuery;
  }

  /** Two backtests' committed rows and decisions of a symbol after m days, if the days went through
      in both, agree but for money. */
  ghost predicate CommittedAlike(cfgA: Config, cfgB: Config, m: nat, symbol: string)
    requires m <= |cfgA.calendar| && m <= |cfgB.calendar|
  {
    var a, b := AfterDays(cfgA, m), AfterDays(cfgB, m);
    a.Some? && b.Some? ==>
      && SameShares(BookOf(a.value.outcomes, KeyOf(cfgA, symbol)), BookOf(b.value.outcomes, KeyOf(cfgB, symbol)))
      && Unpriced(TapeQuery(a.value.decisions, symbol)) == Unpriced(TapeQuery(b.value.decisions, symbol))
  }

  lemma AlikeAfter(cfgA: Config, cfgB: Config, m: nat, symbol: string, a: seq<DayInput>, b: seq<DayInput>)
    requires Valid(cfgA) && Valid(cfgB) && m <= |cfgA.calendar| && m <= |cfgB.calendar|
    requires symbol in cfgA.symbols && symbol in cfgB.symbols
    requires a == InputsOf(cfgA, symbol, m) && b == InputsOf(cfgB, symbol, m) && SameButPrices(a, b)
    ensures CommittedAlike(cfgA, cfgB, m, symbol)
  {
    if AfterDays(cfgA, m).Some? && AfterDays(cfgB, m).Some? {
      CommittedAre(cfgA, symbol, m, a);
      CommittedAre(cfgB, symbol, m, b);
    }
    PricesDoNotMovePositions(a, b, cfgA.bps, cfgB.bps, cfgA.store, cfgB.store);
    SameUnpricedTapes(a, b, cfgA.column, cfgB.column);
    hide AfterDays, BookRun, TapeQuery, TapeOf, InputsOf, Valid, SameShares, Unpriced;
  }

  /** The ruling on a symbol on day m of the calendar, from the committed rows of the days before. */
  function CommittedRuling(cfg: Config, m: nat, symbol: string): Option<Ruling>
    requires m < |cfg.calendar|
  {
    match AfterDays(cfg, m)
    case None => None
    case Some(s) =>
      Some(RulingOf(InputOf(cfg, cfg.calendar[m], symbol), Held(BookOf(s.outcomes, KeyOf(cfg, symbol)).lots)))
  }

  /** CAUSALITY, COMMITTED. Take two backtests over the same days, with any symbols, slippage and
      columns, which both got as far as some day, and a symbol of both on whose market they know the
      same at that day's decision. Then the symbol gets the same action and quantity on that day, and
      through it the committed decisions and rows of the symbol agree but for prices. */
  lemma CommittedDecisionsAreCausal(z: Zone, marketsA: string -> Market, marketsB: string -> Market,
                                    agents: string -> Agents, cfgA: Config, cfgB: Config, m: nat, symbol: string)
    requires Valid(cfgA) && Valid(cfgB) && cfgA.calendar == cfgB.calendar && m < |cfgA.calendar|
    requires symbol in cfgA.symbols && symbol in cfgB.symbols
    requires DrawsOn(cfgA, z, marketsA, agents) && DrawsOn(cfgB, z, marketsB, agents)
    requires SameKnowledge(z, marketsA(symbol), marketsB(symbol), AsOf(cfgA.calendar[m]))
    requires AfterDays(cfgA, m).Some? && AfterDays(cfgB, m).Some?
    ensures CommittedRuling(cfgA, m, symbol).Some?
    ensures CommittedRuling(cfgA, m, symbol) == CommittedRuling(cfgB, m, symbol)
    ensures CommittedAlike(cfgA, cfgB, m, symbol) && CommittedAlike(cfgA, cfgB, m + 1, symbol)
  {
    var days, n := cfgA.calendar, m + 1;
    var a, b := InputsOf(cfgA, symbol, n), InputsOf(cfgB, symbol, n);
    StoredInputs(cfgA, z, marketsA, agents, symbol, n);
    StoredInputs(cfgB, z, marketsB, agents, symbol, n);
    SameInputsThrough(z, marketsA(symbol), marketsB(symbol), agents(symbol), days, m);
    assert a == InputsOf(cfgA, symbol, m) + [InputOf(cfgA, days[m], symbol)];
    assert b == InputsOf(cfgB, symbol, m) + [InputOf(cfgB, days[m], symbol)];
    hide InputsAt, InputOf, InputsOf, DrawsOn, SameKnowledge, Valid, AfterDays, CommittedAlike;
    AlikeAfter(cfgA, cfgB, n, symbol, a, b);
    AlikeBefore(cfgA, cfgB, m, symbol, a, b);
  }

  lemma AlikeBefore(cfgA: Config, cfgB: Config, m: nat, symbol: string, a: seq<DayInput>, b: seq<DayInput>)
    requires Valid(cfgA) && Valid(cfgB) && cfgA.calendar == cfgB.calendar && m < |cfgA.calendar|
    requires symbol in cfgA.symbols && symbol in cfgB.symbols
    requires a == InputsOf(cfgA, symbol, m) + [InputOf(cfgA, cfgA.calendar[m], symbol)]
    requires b == InputsOf(cfgB, symbol, m) + [InputOf(cfgB, cfgB.calendar[m], symbol)]
    requires SameButPrices(a, b)
    requires AfterDays(cfgA, m).Some? && AfterDays(cfgB, m).Some?
    ensures CommittedAlike(cfgA, cfgB, m, symbol)
    ensures CommittedRuling(cfgA, m, symbol).Some?
    ensures CommittedRuling(cfgA, m, symbol) == CommittedRuling(cfgB, m, symbol)
  {
    hide AfterDays, Valid, InputOf, Limit;
    var lastA, lastB := InputOf(cfgA, cfgA.calendar[m], symbol), InputOf(cfgB, cfgB.calendar[m], symbol);
    SamePrefix(InputsOf(cfgA, symbol, m), InputsOf(cfgB, symbol, m), lastA, lastB, m, cfgA, cfgB, symbol);
    hide InputsOf;
    AlikeAfter(cfgA, cfgB, m, symbol, InputsOf(cfgA, symbol, m), InputsOf(cfgB, symbol, m));
    RunSharesHoldTheSame(BookOf(AfterDays(cfgA, m).value.outcomes, KeyOf(cfgA, symbol)),
                         BookOf(AfterDays(cfgB, m).value.outcomes, KeyOf(cfgB, symbol)));
  }

  lemma {:induction false} InputsPerDay(cfg: Config, symbol: string, m: nat)
    requires m <= |cfg.calendar|
    ensures |InputsOf(cfg, symbol, m)| == m
  {
    if m > 0 {
      InputsPerDay(cfg, symbol, m - 1);
    }
  }

  lemma SamePrefix(a: seq<DayInput>, b: seq<DayInput>, lastA: DayInput, lastB: DayInput, m: nat,
                   cfgA: Config, cfgB: Config, symbol: string)
    requires m <= |cfgA.calendar| && m <= |cfgB.calendar|
    requires a == InputsOf(cfgA, symbol, m) && b == InputsOf(cfgB, symbol, m)
    requires SameButPrices(a + [lastA], b + [lastB])
    ensures SameButPrices(a, b) && lastA.(open := None) == lastB.(open := None)
  {
    InputsPerDay(cfgA, symbol, m);
    InputsPerDay(cfgB, symbol, m);
    hide InputsOf;
    assert (a + [lastA])[m] == lastA && (b + [lastB])[m] == lastB;
    assert forall i :: 0 <= i < m ==> (a + [lastA])[i] == a[i] && (b + [lastB])[i] == b[i];
  }

  // ---------------------------------------------------------------- the returns behind the VaR

  function Compounded(growth: seq<real>): real {
    if growth == [] then 1.0 else Times(Compounded(growth[..|growth| - 1]), 1.0 + growth[|growth| - 1])
  }

  /** One return per pair of neighbours, and compounding them all takes the first close to the last. */
  lemma {:induction false} ReturnsCompoundToTheLastClose(bars: seq<Bar>)
    requires bars != []
    ensures |SimpleReturns(bars)| == |bars| - 1
    ensures Times(bars[0].close, Compounded(SimpleReturns(bars))) == bars[|bars| - 1].close
  {
    hide Times;
    var n := |bars| - 1;
    if n == 0 {
      TimesOne(bars[0].close);
    } else {
      ReturnsCompoundToTheLastClose(bars[..n]);
      var before := SimpleReturns(bars[..n]);
      var last: real, next: real := bars[n - 1].close, bars[n].close;
      var step: real := next / last - 1.0;
      assert SimpleReturns(bars) == before + [step];
      hide SimpleReturns;
      assert (before + [step])[..|before|] == before;
      assert Compounded(before + [step]) == Times(Compounded(before), 1.0 + step);
      hide Compounded;
      NextClose(bars[0].close, Compounded(before), last, next, step);
    }
  }

  lemma TimesOne(x: real)
    ensures Times(x, 1.0) == x
  {
  }

  lemma NextClose(first: real, product: real, last: real, next: real, step: real)
    requires last > 0.0 && Times(first, product) == last && step == next / last - 1.0
    ensures Times(first, Times(product, 1.0 + step)) == next
  {
    var ratio := 1.0 + step;
    assert ratio * last == next;
    assert first * (product * ratio) == (first * product) * ratio;
  }

  /** The VaR of a day is the thirteenth worst of the last 250 returns, and there is none without them. */
  lemma RiskIsTheThirteenthWorstOf250(bars: seq<Bar>)
    ensures RiskInput(bars).NoHistory? <==> |bars| <= 250
    ensures RiskInput(bars).NoHistory? || RiskInput(bars).Known?
    ensures RiskInput(bars).Known? ==>
              var moves, v := SimpleReturns(bars), RiskInput(bars).var95;
              && |moves| >= 250
              && var losses := Negated(moves[|moves| - 250..]);
                 && v in losses
                 && Count(losses, x => x >= v) >= 13
                 && Count(losses, x => x > v) <= 12
  {
    if bars != [] {
      ReturnsCompoundToTheLastClose(bars);
    }
    hide SimpleReturns, TailCount, Count, HistoricalVar;
    var moves := SimpleReturns(bars);
    VarNeedsHistory(moves);
    if |moves| >= 250 {
      TailCountBetween(250, 0.95);
      assert Share(250, 0.95) == 12.5;
      VarIsTheTailQuantile(moves, 0.95, 250);
    }
  }

  lemma VarNeedsHistory(moves: seq<real>)
    ensures HistoricalVar(moves, 0.95, 250).None? <==> |moves| < 250
  {
    hide SortDesc, TailCount;
  }
}
