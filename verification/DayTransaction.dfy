/** One trading day as one transaction over all symbols. The risk node asks for the position over
    another connection, so it sees committed rows only; the ledger is written inside the
    transaction. With one decision per symbol and day the two agree. */
module DayTransaction {
  import opened Trading
  import opened Lots
  import opened RiskGate
  import opened Dates
  import opened Ledger
  import opened Engine
  import Replay

  /** The recorded decision: what the tape query later reads. */
  datatype DecisionRow = DecisionRow(symbol: string, day: int, proposal: Proposal, rawPrice: Option<real>,
                                     storedOpen: Option<real>, varMaxQty: Option<int>)

  datatype Store = Store(outcomes: seq<Row>, decisions: seq<DecisionRow>)

  /** What is fixed for all processes of one backtest; `inputs` is the market and the agents. */
  datatype Config = Config(
    backtest: int,
    symbols: seq<string>,
    calendar: seq<int>,
    inputs: (int, string) -> DayInput,
    bps: real,
    store: real -> real,
    column: real -> real)

  ghost predicate Valid(cfg: Config) {
    && StrictlyIncreasing(cfg.calendar)
    && forall i, j :: 0 <= i < j < |cfg.symbols| ==> cfg.symbols[i] != cfg.symbols[j]
  }

  function KeyOf(cfg: Config, symbol: string): Key {
    Key(cfg.backtest, symbol)
  }

  function InputOf(cfg: Config, day: int, symbol: string): DayInput {
    cfg.inputs(day, symbol).(day := day)
  }

  function DecisionOf(cfg: Config, day: int, symbol: string): DecisionRow {
    var d := InputOf(cfg, day, symbol);
    DecisionRow(symbol, day, d.proposal, d.rawPrice,
                if d.open.Some? then Some(cfg.column(d.open.value)) else None, Limit(d.risk))
  }

  function PositionAfter(held: int, action: Action, quantity: int): int {
    match action
    case BUY => held + quantity
    case SELL => held - quantity
    case HOLD => held
  }

  /** The CHECK on the forecast row, which is written only with a VaR: the position that the ruling
      leads to is not negative. */
  predicate ForecastFits(d: DayInput, held: int) {
    d.risk.Known? ==> PositionAfter(held, RulingOf(d, held).action, RulingOf(d, held).quantity) >= 0
  }

  /** Only one kind of proposal fails the CHECK: a BUY of a negative quantity larger than the
      position, with a VaR, that neither limit has already vetoed. */
  lemma ForecastFailsExactlyWhen(d: DayInput, held: int)
    requires 0 <= held
    ensures !ForecastFits(d, held) <==>
            && d.risk.Known? && d.proposal.action == BUY && held + d.proposal.quantity < 0
            && held < Min(MAX_POSITION_QTY, VarMaxQty(d.risk.var95))
  {
    hide VarMaxQty;
  }

  /** The committed position lets the symbol's forecast row in. */
  predicate Fits(cfg: Config, committed: Store, day: int, symbol: string) {
    ForecastFits(InputOf(cfg, day, symbol), Held(BookOf(committed.outcomes, KeyOf(cfg, symbol)).lots))
  }

  /** One symbol's decision and trade: the position is read from `committed`, the rows are
      written to `working`. None is the failed CHECK or the oversell error, which abort the day. */
  function WriteSymbol(cfg: Config, committed: Store, working: Store, day: int, symbol: string): Option<Store> {
    var d := InputOf(cfg, day, symbol);
    var r := RulingOf(d, Held(BookOf(committed.outcomes, KeyOf(cfg, symbol)).lots));
    var decisions := working.decisions + [DecisionOf(cfg, day, symbol)];
    if !Fits(cfg, committed, day, symbol) then None
    else if d.rawPrice.None? || r.quantity == 0 then Some(Store(working.outcomes, decisions))
    else
      var o := Order(KeyOf(cfg, symbol), |working.decisions|, r.action, r.quantity, FillPrice(d, r.action, cfg.bps),
                     AsOf(day));
      match RecordTrade(working.outcomes, o, cfg.store)
      case None => None
      case Some(rows) => Some(Store(rows, decisions))
  }

  /** The uncommitted state of a day after its first n symbols. */
  function DayWrites(cfg: Config, committed: Store, day: int, n: nat): Option<Store>
    requires n <= |cfg.symbols|
  {
    if n == 0 then Some(committed)
    else
      var before := DayWrites(cfg, committed, day, n - 1);
      if before.None? then None else WriteSymbol(cfg, committed, before.value, day, cfg.symbols[n - 1])
  }

  // ---------------------------------------------------------------- the tape query

  /** Decisions of a symbol that have a price, as tape rows, in insertion order. */
  function TapeQuery(decisions: seq<DecisionRow>, symbol: string): seq<Replay.TapeRow> {
    if decisions == [] then []
    else
      var last := decisions[|decisions| - 1];
      TapeQuery(decisions[..|decisions| - 1], symbol)
        + if last.symbol == symbol && last.rawPrice.Some? then
            [Replay.TapeRow(last.day, last.proposal.action, Some(last.proposal.quantity),
                            if last.storedOpen.Some? then last.storedOpen.value else last.rawPrice.value,
                            last.varMaxQty)]
          else []
  }

  lemma TapeQueryAppend(decisions: seq<DecisionRow>, cfg: Config, day: int, written: string, symbol: string)
    ensures
      var d := InputOf(cfg, day, symbol);
      TapeQuery(decisions + [DecisionOf(cfg, day, written)], symbol)
        == TapeQuery(decisions, symbol)
           + if written == symbol && d.rawPrice.Some? then [TapeRowOf(d, cfg.column)] else []
  {
    hide Limit;
    assert (decisions + [DecisionOf(cfg, day, written)])[..|decisions|] == decisions;
  }

  // ---------------------------------------------------------------- one day

  ghost predicate AllOlder(rows: seq<Row>, t: int) {
    forall i :: 0 <= i < |rows| ==> rows[i].openedAt < t
  }

  /** A committed state in which the day can run. */
  ghost predicate Ready(cfg: Config, committed: Store, day: int) {
    && WellFormed(committed.outcomes)
    && AllOlder(committed.outcomes, AsOf(day))
    && forall s :: Within(BookOf(committed.outcomes, KeyOf(cfg, s)))
  }

  predicate Written(cfg: Config, n: nat, symbol: string)
    requires n <= |cfg.symbols|
  {
    exists j :: 0 <= j < n && cfg.symbols[j] == symbol
  }

  /** What the working state says about one symbol: its day's result if written, otherwise the
      committed book. */
  ghost predicate SymbolState(cfg: Config, committed: Store, working: Store, day: int, n: nat, symbol: string)
    requires n <= |cfg.symbols|
  {
    var k := KeyOf(cfg, symbol);
    var was, now := BookOf(committed.outcomes, k), BookOf(working.outcomes, k);
    var d := InputOf(cfg, day, symbol);
    if Written(cfg, n, symbol) then
      && BookDay(was, d, cfg.bps, cfg.store) == Some(now)
      && TapeQuery(working.decisions, symbol)
           == TapeQuery(committed.decisions, symbol) + if d.rawPrice.Some? then [TapeRowOf(d, cfg.column)] else []
    else
      && now == was
      && Newer(working.outcomes, k, AsOf(day))
      && TapeQuery(working.decisions, symbol) == TapeQuery(committed.decisions, symbol)
  }

  ghost predicate Progress(cfg: Config, committed: Store, working: Store, day: int, n: nat)
    requires n <= |cfg.symbols|
  {
    && WellFormed(working.outcomes)
    && AllOlder(working.outcomes, AsOf(day) + 1)
    && forall s :: SymbolState(cfg, committed, working, day, n, s)
  }

  /** The order a ruling turns into. */
  function OrderOf(cfg: Config, committed: Store, working: Store, day: int, symbol: string): Order
    requires InputOf(cfg, day, symbol).rawPrice.Some?
  {
    var d := InputOf(cfg, day, symbol);
    var r := RulingOf(d, Held(BookOf(committed.outcomes, KeyOf(cfg, symbol)).lots));
    Order(KeyOf(cfg, symbol), |working.decisions|, r.action, r.quantity, FillPrice(d, r.action, cfg.bps), AsOf(day))
  }

  /** Writing one more symbol fails only on its forecast; otherwise it gives that symbol its day and
      touches no other. */
  lemma WriteSymbolProgress(cfg: Config, committed: Store, working: Store, day: int, n: nat)
    requires Valid(cfg) && n < |cfg.symbols| && Ready(cfg, committed, day)
    requires Progress(cfg, committed, working, day, n)
    ensures WriteSymbol(cfg, committed, working, day, cfg.symbols[n]).Some?
       <==> Fits(cfg, committed, day, cfg.symbols[n])
    ensures WriteSymbol(cfg, committed, working, day, cfg.symbols[n]).Some? ==>
              Progress(cfg, committed, WriteSymbol(cfg, committed, working, day, cfg.symbols[n]).value, day, n + 1)
  {
    var symbol, m := cfg.symbols[n], n + 1;
    LedgerNeverRefuses(cfg, committed, working, day, n);
    var next := WriteSymbol(cfg, committed, working, day, symbol);
    hide WriteSymbol, Fits, Ready;
    if next.Some? {
      assert !Written(cfg, n, symbol);
      assert SymbolState(cfg, committed, working, day, n, symbol);
      WrittenTable(cfg, committed, working, day, symbol);
      forall s ensures SymbolState(cfg, committed, next.value, day, m, s) {
        WrittenSymbolState(cfg, committed, working, day, n, s);
      }
    }
  }

  lemma LedgerNeverRefuses(cfg: Config, committed: Store, working: Store, day: int, n: nat)
    requires Valid(cfg) && n < |cfg.symbols| && Ready(cfg, committed, day)
    requires Progress(cfg, committed, working, day, n)
    ensures WriteSymbol(cfg, committed, working, day, cfg.symbols[n]).Some?
       <==> Fits(cfg, committed, day, cfg.symbols[n])
  {
    var symbol := cfg.symbols[n];
    assert !Written(cfg, n, symbol);
    assert SymbolState(cfg, committed, working, day, n, symbol);
    var k, d := KeyOf(cfg, symbol), InputOf(cfg, day, symbol);
    DayKeepsBookWithin(BookOf(committed.outcomes, k), d, cfg.bps, cfg.store);
    hide Fits;
    if d.rawPrice.Some? {
      TableRefinesBook(working.outcomes, OrderOf(cfg, committed, working, day, symbol), cfg.store);
    }
  }

  /** The trade of one symbol, or no trade: the table stays sound and other keys keep their books. */
  lemma WrittenTable(cfg: Config, committed: Store, working: Store, day: int, symbol: string)
    requires WellFormed(working.outcomes) && AllOlder(working.outcomes, AsOf(day) + 1)
    requires Newer(working.outcomes, KeyOf(cfg, symbol), AsOf(day))
    requires WriteSymbol(cfg, committed, working, day, symbol).Some?
    ensures
      var rows := WriteSymbol(cfg, committed, working, day, symbol).value.outcomes;
      && WellFormed(rows)
      && AllOlder(rows, AsOf(day) + 1)
  {
    var d := InputOf(cfg, day, symbol);
    if d.rawPrice.Some? {
      var o := OrderOf(cfg, committed, working, day, symbol);
      if RecordTrade(working.outcomes, o, cfg.store).Some? {
        TradeKeepsTableSound(working.outcomes, o, cfg.store);
        var rows := RecordTrade(working.outcomes, o, cfg.store).value;
        forall i | 0 <= i < |rows| ensures rows[i].openedAt < AsOf(day) + 1 {
          assert Newer(working.outcomes, rows[i].key, AsOf(day) + 1);
          TradeKeepsAges(working.outcomes, o, cfg.store, rows[i].key, AsOf(day) + 1);
        }
      }
    }
  }

  lemma OtherSymbolKeeps(cfg: Config, committed: Store, working: Store, day: int, written: string, other: string)
    requires WellFormed(working.outcomes) && other != written
    requires WriteSymbol(cfg, committed, working, day, written).Some?
    ensures
      var next, k := WriteSymbol(cfg, committed, working, day, written).value, KeyOf(cfg, other);
      && BookOf(next.outcomes, k) == BookOf(working.outcomes, k)
      && (Newer(working.outcomes, k, AsOf(day)) ==> Newer(next.outcomes, k, AsOf(day)))
      && TapeQuery(next.decisions, other) == TapeQuery(working.decisions, other)
  {
    TapeQueryAppend(working.decisions, cfg, day, written, other);
    var d, k := InputOf(cfg, day, written), KeyOf(cfg, other);
    if d.rawPrice.Some? {
      var o := OrderOf(cfg, committed, working, day, written);
      if RecordTrade(working.outcomes, o, cfg.store).Some? {
        TradeKeepsOtherBooks(working.outcomes, o, cfg.store, k);
        if Newer(working.outcomes, k, AsOf(day)) {
          TradeKeepsAges(working.outcomes, o, cfg.store, k, AsOf(day));
        }
      }
    }
  }

  lemma WrittenSymbolState(cfg: Config, committed: Store, working: Store, day: int, n: nat, s: string)
    requires Valid(cfg) && n < |cfg.symbols|
    requires Progress(cfg, committed, working, day, n)
    requires WriteSymbol(cfg, committed, working, day, cfg.symbols[n]).Some?
    ensures SymbolState(cfg, committed, WriteSymbol(cfg, committed, working, day, cfg.symbols[n]).value, day, n + 1, s)
  {
    var written := cfg.symbols[n];
    assert SymbolState(cfg, committed, working, day, n, s);
    if s == written {
      assert !Written(cfg, n, s);
      assert Written(cfg, n + 1, s);
      TapeQueryAppend(working.decisions, cfg, day, written, s);
      var d := InputOf(cfg, day, s);
      if d.rawPrice.Some? {
        TableRefinesBook(working.outcomes, OrderOf(cfg, committed, working, day, s), cfg.store);
      }
    } else {
      assert Written(cfg, n + 1, s) <==> Written(cfg, n, s);
      OtherSymbolKeeps(cfg, committed, working, day, written, s);
    }
  }

  /** The forecasts of the first n symbols fit the committed positions. */
  predicate DayFits(cfg: Config, committed: Store, day: int, n: nat)
    requires n <= |cfg.symbols|
  {
    forall j :: 0 <= j < n ==> Fits(cfg, committed, day, cfg.symbols[j])
  }

  lemma OneMoreFits(cfg: Config, committed: Store, day: int, n: nat, next: nat)
    requires next == n + 1 <= |cfg.symbols|
    ensures DayFits(cfg, committed, day, next)
       <==> DayFits(cfg, committed, day, n) && Fits(cfg, committed, day, cfg.symbols[n])
  {
    hide Fits;
  }

  lemma NothingWrittenYet(cfg: Config, committed: Store, day: int)
    requires Valid(cfg) && Ready(cfg, committed, day)
    ensures DayFits(cfg, committed, day, 0) && Progress(cfg, committed, committed, day, 0)
  {
    hide BookOf, TapeQuery;
  }

  /** From a sound committed state a day's transaction is aborted exactly when some symbol's forecast
      fails its CHECK: the ledger itself refuses nothing. */
  lemma {:induction false} DayRefusedOnlyByForecasts(cfg: Config, committed: Store, day: int, n: nat)
    requires Valid(cfg) && n <= |cfg.symbols| && Ready(cfg, committed, day)
    ensures DayWrites(cfg, committed, day, n).Some? <==> DayFits(cfg, committed, day, n)
    ensures DayWrites(cfg, committed, day, n).Some? ==>
              Progress(cfg, committed, DayWrites(cfg, committed, day, n).value, day, n)
  {
    hide Valid, Progress, Ready, WriteSymbol, DayFits;
    if n == 0 {
      NothingWrittenYet(cfg, committed, day);
    } else {
      DayRefusedOnlyByForecasts(cfg, committed, day, n - 1);
      OneMoreFits(cfg, committed, day, n - 1, n);
      if DayWrites(cfg, committed, day, n - 1).Some? {
        WriteSymbolProgress(cfg, committed, DayWrites(cfg, committed, day, n - 1).value, day, n - 1);
      }
    }
  }

  // ---------------------------------------------------------------- whole days

  const NOTHING_STORED := Store([], [])

  /** The store after the first m days of the calendar, each committed as one transaction. */
  function AfterDays(cfg: Config, m: nat): Option<Store>
    requires m <= |cfg.calendar|
  {
    if m == 0 then Some(NOTHING_STORED)
    else
      var before := AfterDays(cfg, m - 1);
      if before.None? then None else DayWrites(cfg, before.value, cfg.calendar[m - 1], |cfg.symbols|)
  }

  function InputsOf(cfg: Config, symbol: string, m: nat): seq<DayInput>
    requires m <= |cfg.calendar|
  {
    if m == 0 then [] else InputsOf(cfg, symbol, m - 1) + [InputOf(cfg, cfg.calendar[m - 1], symbol)]
  }

  /** What the store says about one symbol after m days. */
  ghost predicate SymbolHistory(cfg: Config, s: Store, m: nat, symbol: string)
    requires m <= |cfg.calendar|
  {
    var b := BookOf(s.outcomes, KeyOf(cfg, symbol));
    && Within(b)
    && (symbol in cfg.symbols ==>
          && BookRun(InputsOf(cfg, symbol, m), cfg.bps, cfg.store) == Some(b)
          && TapeQuery(s.decisions, symbol) == TapeOf(InputsOf(cfg, symbol, m), cfg.column))
  }

  ghost predicate History(cfg: Config, s: Store, m: nat)
    requires m <= |cfg.calendar|
  {
    && WellFormed(s.outcomes)
    && (forall i :: m <= i < |cfg.calendar| ==> AllOlder(s.outcomes, AsOf(cfg.calendar[i])))
    && forall symbol :: SymbolHistory(cfg, s, m, symbol)
  }

  lemma HistoryIsReady(cfg: Config, s: Store, m: nat)
    requires Valid(cfg) && m < |cfg.calendar| && History(cfg, s, m)
    ensures Ready(cfg, s, cfg.calendar[m])
  {
    forall x ensures Within(BookOf(s.outcomes, KeyOf(cfg, x))) {
      assert SymbolHistory(cfg, s, m, x);
    }
  }

  lemma NextSymbolHistory(cfg: Config, s: Store, next: Store, m: nat, symbol: string)
    requires Valid(cfg) && m < |cfg.calendar|
    requires SymbolHistory(cfg, s, m, symbol)
    requires SymbolState(cfg, s, next, cfg.calendar[m], |cfg.symbols|, symbol)
    ensures SymbolHistory(cfg, next, m + 1, symbol)
  {
    assert Written(cfg, |cfg.symbols|, symbol) <==> symbol in cfg.symbols;
    if symbol in cfg.symbols {
      var d, inputs := InputOf(cfg, cfg.calendar[m], symbol), InputsOf(cfg, symbol, m);
      assert InputsOf(cfg, symbol, m + 1) == inputs + [d];
      hide BookDay, Limit, Change;
      DayKeepsBookWithin(BookOf(s.outcomes, KeyOf(cfg, symbol)), d, cfg.bps, cfg.store);
      assert (inputs + [d])[..|inputs|] == inputs;
    }
  }

  /** After any number of days each symbol's rows are the book of its own run, and the tape query
      returns the tape of that run. */
  lemma {:induction false} StoreIsHistory(cfg: Config, m: nat)
    requires Valid(cfg) && m <= |cfg.calendar| && AfterDays(cfg, m).Some?
    ensures History(cfg, AfterDays(cfg, m).value, m)
  {
    if m > 0 {
      var n := m - 1;
      StoreIsHistory(cfg, n);
      var before, day := AfterDays(cfg, n).value, cfg.calendar[n];
      HistoryIsReady(cfg, before, n);
      DayRefusedOnlyByForecasts(cfg, before, day, |cfg.symbols|);
      var after := AfterDays(cfg, m).value;
      hide SymbolState, SymbolHistory, DayWrites, DayFits;
      forall symbol ensures SymbolHistory(cfg, after, m, symbol) {
        NextSymbolHistory(cfg, before, after, n, symbol);
      }
    }
  }

  /** A further day goes through exactly when its forecasts fit the rows committed before it. */
  lemma NextDayExactlyWhen(cfg: Config, m: nat)
    requires Valid(cfg) && m < |cfg.calendar| && AfterDays(cfg, m).Some?
    ensures AfterDays(cfg, m + 1) == DayWrites(cfg, AfterDays(cfg, m).value, cfg.calendar[m], |cfg.symbols|)
    ensures AfterDays(cfg, m + 1).Some? <==> DayFits(cfg, AfterDays(cfg, m).value, cfg.calendar[m], |cfg.symbols|)
  {
    StoreIsHistory(cfg, m);
    HistoryIsReady(cfg, AfterDays(cfg, m).value, m);
    DayRefusedOnlyByForecasts(cfg, AfterDays(cfg, m).value, cfg.calendar[m], |cfg.symbols|);
    hide DayWrites, DayFits, History, Ready, Progress;
  }

  ghost predicate NoNegativeBuys(cfg: Config) {
    forall day, symbol :: cfg.inputs(day, symbol).proposal.action == BUY ==>
      cfg.inputs(day, symbol).proposal.quantity >= 0
  }

  lemma OrdinaryForecastFits(cfg: Config, s: Store, m: nat, day: int, symbol: string)
    requires NoNegativeBuys(cfg) && m <= |cfg.calendar| && SymbolHistory(cfg, s, m, symbol)
    ensures Fits(cfg, s, day, symbol)
  {
    hide ForecastFits;
    ForecastFailsExactlyWhen(InputOf(cfg, day, symbol), Held(BookOf(s.outcomes, KeyOf(cfg, symbol)).lots));
  }

  /** Proposals without negative BUYs always go through. */
  lemma {:induction false} OrdinaryProposalsGoThrough(cfg: Config, m: nat)
    requires Valid(cfg) && m <= |cfg.calendar| && NoNegativeBuys(cfg)
    ensures AfterDays(cfg, m).Some?
  {
    if m > 0 {
      var n := m - 1;
      OrdinaryProposalsGoThrough(cfg, n);
      hide Valid, AfterDays, DayWrites, Fits, SymbolHistory, NoNegativeBuys;
      StoreIsHistory(cfg, n);
      NextDayExactlyWhen(cfg, n);
      var before, day := AfterDays(cfg, n).value, cfg.calendar[n];
      forall j | 0 <= j < |cfg.symbols| ensures Fits(cfg, before, day, cfg.symbols[j]) {
        assert SymbolHistory(cfg, before, n, cfg.symbols[j]);
        OrdinaryForecastFits(cfg, before, n, day, cfg.symbols[j]);
      }
    }
  }
}
